/** The blockchain manager: account objects mutated in place, proved against the ledger functions. */
module Manager {
  import opened Encoding
  import opened Types
  import opened Storage
  import opened HashChain
  import opened Execution
  import Recovery

  class AccountCell {
    const address: Address
    var balance: U64
    var nonce: U64
    var staked: U64

    function Value(): Account
      reads this
    {
      Account(address, balance, nonce, staked)
    }

    constructor (account: Account)
      ensures Value() == account
    {
      address, balance, nonce, staked := account.address, account.balance, account.nonce, account.staked;
    }
  }

  type Cells = map<Address, AccountCell>

  ghost function Values(cells: Cells): Accounts
    reads cells.Values
  {
    map a | a in cells :: cells[a].Value()
  }

  /** One object an address, filed under its own address. */
  ghost predicate Separate(cells: Cells) {
    && (forall a, b :: a in cells && b in cells && cells[a] == cells[b] ==> a == b)
    && (forall a :: a in cells ==> cells[a].address == a)
  }

  ghost predicate Keyed(accounts: Accounts) {
    forall a :: a in accounts ==> accounts[a].address == a
  }

  datatype Outcome = NotInitialized | Result(result: AddResult)

  class Manager {
    const sha: Sha
    const storage: LevelDBStorage
    var currentBlock: Option<Block>
    var genesisBlock: Option<Block>
    var currentState: Cells
    var isInitialized: bool

    ghost predicate Valid()
      reads this, storage
    {
      && storage.Valid() && storage.sha == sha
      && Separate(currentState) && Keyed(storage.store.accounts)
      && (isInitialized ==> currentBlock.Some?)
    }

    ghost function State(): Accounts
      reads this, currentState.Values
    {
      Values(currentState)
    }

    ghost function Abs(): Ledger
      requires currentBlock.Some?
      reads this, storage, currentState.Values
    {
      Ledger(currentBlock.value, State(), storage.store)
    }

    constructor (storage: LevelDBStorage)
      requires storage.Valid() && Keyed(storage.store.accounts)
      ensures Valid() && this.storage == storage && State() == map[] && !isInitialized && currentState == map[]
    {
      this.sha := storage.sha;
      this.storage := storage;
      currentBlock, genesisBlock, currentState, isInitialized := None, None, map[], false;
    }

    /** getAccount: the cached object, else one built from the stored record or from nothing. */
    method GetAccount(address: Address) returns (account: AccountCell)
      requires Valid()
      modifies this`currentState
      ensures Valid() && address in currentState && account == currentState[address]
      ensures State() == Load(old(State()), storage.store.accounts, address)
      ensures fresh(currentState.Values - old(currentState.Values))
      ensures old(currentState.Keys) <= currentState.Keys
      ensures forall a :: a in old(currentState) ==> currentState[a] == old(currentState[a])
    {
      hide Represents, Separate;
      if address in currentState {
        return currentState[address];
      }
      var stored := storage.GetAccount(address);
      account := Cache(if stored.Some? then stored.value else FreshAccount(address));
    }

    /** A fresh object for an account, filed under its address. */
    method Cache(account: Account) returns (cell: AccountCell)
      requires Valid()
      modifies this`currentState
      ensures Valid() && fresh(cell) && currentState == old(currentState)[account.address := cell]
      ensures State() == old(State())[account.address := account]
      ensures currentState.Values <= old(currentState.Values) + {cell}
    {
      hide Represents;
      cell := new AccountCell(account);
      currentState := currentState[account.address := cell];
    }

    /** processTransaction: the checks, then debit and credit through the two (possibly equal) objects. */
    method ProcessTransaction(tx: Transaction) returns (verdict: TxVerdict)
      requires Valid()
      modifies this`currentState, currentState.Values
      ensures Valid()
      ensures (State(), verdict) == ProcessTx(old(State()), storage.store.accounts, tx)
      ensures fresh(currentState.Values - old(currentState.Values))
    {
      hide Represents, Load, Values, Cost, Wrap, Debit, Credit, Separate, Keyed;
      var from := GetAccount(tx.from);
      var to := GetAccount(tx.to);
      verdict := Transfer(tx, from, to);
    }

    /** The checks and the transfer on two loaded objects. */
    method Transfer(tx: Transaction, from: AccountCell, to: AccountCell) returns (verdict: TxVerdict)
      requires Valid() && tx.from in currentState && tx.to in currentState
      requires from == currentState[tx.from] && to == currentState[tx.to]
      modifies this`currentState, from, to
      ensures Valid() && currentState == old(currentState)
      ensures var s := old(State());
              verdict == (if s[tx.from].balance < Cost(tx) then InsufficientBalance
                          else if tx.nonce != Wrap(s[tx.from].nonce + 1) then InvalidNonce else Applied)
              && State() == if verdict == Applied then Credit(Debit(s, tx), tx) else s
    {
      hide Represents;
      var totalCost := Wrap(tx.amount + Wrap(tx.gasPrice * tx.gasLimit));
      assert totalCost == Cost(tx) && from.Value() == State()[tx.from];
      hide Values, Wrap, Cost, Debit, Credit, Separate, Keyed;
      if from.balance < totalCost {
        return InsufficientBalance;
      }
      if tx.nonce != Wrap(from.nonce + 1) {
        return InvalidNonce;
      }
      DebitAccount(from, tx, totalCost);
      CreditAccount(to, tx);
      Refile(tx.from, from);
      Refile(tx.to, to);
      verdict := Applied;
    }

    /** Filing an account object again where it already is. */
    method Refile(address: Address, account: AccountCell)
      requires address in currentState && currentState[address] == account
      modifies this`currentState
      ensures currentState == old(currentState)
    {
      currentState := currentState[address := account];
    }

    method DebitAccount(from: AccountCell, tx: Transaction, totalCost: U64)
      requires Valid() && tx.from in currentState && currentState[tx.from] == from
      requires totalCost == Cost(tx) <= from.balance
      modifies from
      ensures Valid() && State() == Debit(old(State()), tx)
    {
      hide Represents, Cost;
      from.balance := from.balance - totalCost;
      from.nonce := Wrap(from.nonce + 1);
    }

    method CreditAccount(to: AccountCell, tx: Transaction)
      requires Valid() && tx.to in currentState && currentState[tx.to] == to
      modifies to
      ensures Valid() && State() == Credit(old(State()), tx)
    {
      hide Represents;
      to.balance := Wrap(to.balance + tx.amount);
    }

    method ProcessBlockTransactions(block: Block) returns (ok: bool)
      requires Valid()
      modifies this`currentState, currentState.Values
      ensures Valid()
      ensures var e := ProcessTxs(old(State()), storage.store.accounts, storage.store.txs, block.transactions);
              State() == e.state && ok == e.ok
      ensures fresh(currentState.Values - old(currentState.Values))
    {
      hide Represents, ProcessTx, EntryFor, Separate, Keyed, Values;
      var hashes := block.transactions;
      for i := 0 to |hashes|
        invariant Valid()
        invariant fresh(currentState.Values - old(currentState.Values))
        invariant var e := ProcessTxs(old(State()), storage.store.accounts, storage.store.txs, hashes[..i]);
                  State() == e.state && e.ok
      {
        assert hashes[..i + 1][..i] == hashes[..i];
        var tx := storage.GetTransaction(hashes[i]);
        if tx.Some? {
          var verdict := ProcessTransaction(tx.value);
          if verdict != Applied {
            FailureStays(old(State()), storage.store.accounts, storage.store.txs, hashes, i + 1);
            return false;
          }
        }
      }
      assert hashes[..|hashes|] == hashes;
      ok := true;
    }

    /** saveCurrentState: one put for every cached account, in any order. */
    method SaveCurrentState()
      requires Valid()
      modifies storage
      ensures Valid() && storage.store == SaveState(old(storage.store), State())
    {
      hide Represents;
      var pending := currentState.Keys;
      ghost var state := State();
      while pending != {}
        invariant pending <= currentState.Keys && State() == state
        invariant Valid()
        invariant storage.store == SaveState(old(storage.store), state - pending)
      {
        var a :| a in pending;
        SaveOneMore(old(storage.store), state, pending, a);
        storage.SaveAccount(currentState[a].Value());
        pending := pending - {a};
      }
      assert state - {} == state;
    }

    /** The copy of the cached accounts ProcessTransactions works on. */
    method Snapshot() returns (copy: Accounts)
      ensures copy == State()
    {
      copy := map a | a in currentState :: currentState[a].Value();
    }

    /** AddBlock: refused, failed midway with its effects kept, or executed and saved. */
    method AddBlock(block: Block) returns (r: Outcome)
      requires Valid()
      modifies this, storage, currentState.Values
      ensures Valid() && isInitialized == old(isInitialized)
      ensures r.NotInitialized? <==> !old(isInitialized)
      ensures r.NotInitialized? ==>
                State() == old(State()) && storage.store == old(storage.store) && currentBlock == old(currentBlock)
      ensures r.Result? ==> (Abs(), r.result) == Execution.AddBlock(sha, old(Abs()), block)
      ensures fresh(currentState.Values - old(currentState.Values))
    {
      hide Represents, ProcessTxs, ValidateBlock, Separate, Keyed, Values;
      if !isInitialized {
        return NotInitialized;
      }
      var verdict := ValidateBlock(sha, currentBlock.value, block);
      if verdict != HashChain.Valid {
        return Result(Refused(verdict));
      }
      var ok := ProcessBlockTransactions(block);
      if !ok {
        return Result(Failed);
      }
      storage.SaveBlock(block);
      currentBlock := Some(block);
      SaveCurrentState();
      r := Result(Added);
    }

    /** createNewChain. */
    method CreateNewChain(genesis: Genesis, stateRoot: Hash)
      requires Valid() && currentState == map[]
      modifies this, storage
      ensures Valid() && isInitialized
      ensures currentBlock == genesisBlock == Some(GenesisBlock(sha, genesis.timestamp, stateRoot))
      ensures State() == InitState(genesis.initAccounts)
      ensures storage.store
              == SaveState(WithBlock(sha, old(storage.store).(genesis := Some(genesis)), currentBlock.value), State())
      ensures old(storage.store) == EMPTY_STORE ==> Abs() == Execution.CreateNewChain(sha, genesis, stateRoot)
      ensures fresh(currentState.Values)
    {
      hide Represents, GenesisBlock, InitState, Separate, Keyed, Values;
      var block := GenesisBlock(sha, genesis.timestamp, stateRoot);
      genesisBlock, currentBlock := Some(block), Some(block);
      InitializeState(genesis.initAccounts);
      storage.SaveGenesisBlock(genesis);
      storage.SaveBlock(block);
      SaveAccounts(genesis.initAccounts);
      isInitialized := true;
    }

    method SaveAccounts(accounts: seq<Account>)
      requires Valid()
      modifies storage
      ensures Valid() && storage.store == SaveState(old(storage.store), InitState(accounts))
    {
      hide Represents;
      for i := 0 to |accounts|
        invariant Valid()
        invariant storage.store == SaveState(old(storage.store), InitState(accounts[..i]))
      {
        SaveNextInit(old(storage.store), accounts, i);
        storage.SaveAccount(accounts[i]);
      }
      assert accounts[..|accounts|] == accounts;
    }

    /** Genesis accounts copied into fresh objects. */
    method InitializeState(accounts: seq<Account>)
      requires Valid()
      modifies this`currentState
      ensures Valid() && State() == InitState(accounts)
      ensures fresh(currentState.Values)
    {
      hide Represents;
      currentState := map[];
      for i := 0 to |accounts|
        invariant Valid() && fresh(currentState.Values)
        invariant State() == InitState(accounts[..i])
      {
        var _ := Cache(accounts[i]);
        assert accounts[..i + 1][..i] == accounts[..i];
        assert InitState(accounts[..i + 1]) == InitState(accounts[..i])[accounts[i].address := accounts[i]];
      }
      assert accounts[..|accounts|] == accounts;
    }

    /** rebuildState: genesis accounts again, then every stored block again, up to the first that fails
        or is missing. */
    method RebuildState() returns (ok: bool)
      requires Valid() && storage.store.genesis.Some?
      modifies this`currentState
      ensures Valid() && fresh(currentState.Values)
      ensures (State(), ok) == Recovery.Rebuilt(storage.store, storage.store.genesis.value, LatestHeight(storage.store))
    {
      hide Represents, ProcessTxs;
      var genesis := storage.GetGenesisBlock();
      InitializeState(genesis.value.initAccounts);
      var lastHeight := storage.GetLatestBlockHeight();
      var height: int := 1;
      while height <= lastHeight
        invariant 1 <= height <= lastHeight as int + 1
        invariant Valid() && fresh(currentState.Values)
        invariant Recovery.Rebuilt(storage.store, genesis.value, height - 1) == (State(), true)
      {
        var block := storage.GetBlock(height);
        if block.None? {
          Recovery.RebuiltStops(storage.store, genesis.value, height, lastHeight);
          return false;
        }
        var done := ProcessBlockTransactions(block.value);
        if !done {
          Recovery.RebuiltStops(storage.store, genesis.value, height, lastHeight);
          return false;
        }
        height := height + 1;
      }
      ok := true;
    }

    /** loadExistingChain, once a genesis configuration is stored. */
    method LoadExistingChain() returns (ok: bool)
      requires Valid() && storage.store.genesis.Some?
      modifies this
      ensures Valid()
      ensures ok == Recovery.Recover(storage.store).Some?
      ensures ok ==> isInitialized && Abs() == Recovery.Recover(storage.store).value
      ensures !ok ==> isInitialized == old(isInitialized)
    {
      hide Represents, Recovery.Replay, Recovery.Rebuilt;
      Recovery.ReplayIsRebuilt(storage.store, storage.store.genesis.value, LatestHeight(storage.store));
      var genesis := storage.GetBlock(0);
      if genesis.None? {
        return false;
      }
      genesisBlock := genesis;
      var lastHeight := storage.GetLatestBlockHeight();
      if lastHeight > 0 {
        var block := storage.GetBlock(lastHeight);
        if block.None? {
          return false;
        }
        currentBlock := block;
      } else {
        currentBlock := genesis;
      }
      ok := RebuildState();
      if ok {
        isInitialized := true;
      }
    }
  }

  lemma SaveNextInit(s: Store, accounts: seq<Account>, i: nat)
    requires i < |accounts|
    ensures SaveState(s, InitState(accounts[..i + 1]))
            == SaveState(s, InitState(accounts[..i])).(
                 accounts := SaveState(s, InitState(accounts[..i])).accounts[accounts[i].address := accounts[i]])
  {
    assert accounts[..i + 1][..i] == accounts[..i];
    assert s.accounts + InitState(accounts[..i + 1])
        == (s.accounts + InitState(accounts[..i]))[accounts[i].address := accounts[i]];
  }

  lemma SaveOneMore(s: Store, state: Accounts, pending: set<Address>, a: Address)
    requires a in pending && a in state
    ensures SaveState(s, state - (pending - {a}))
            == SaveState(s, state - pending).(accounts := SaveState(s, state - pending).accounts[a := state[a]])
  {
    assert s.accounts + (state - (pending - {a})) == (s.accounts + (state - pending))[a := state[a]];
  }
}
