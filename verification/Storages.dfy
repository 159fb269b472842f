/**
 Buyers and providers at shared storages (les14_threads/src/lifeSimulator.c).
 Every read and write of a shared variable and every lock operation is one step, so other threads
 may run between a buyer's look at the stock and its trylock, and between the two halves of a purchase.
 */
module Storages {
  import opened Sets
  import opened Wrappers

  // ----------------------------------------------------------------- one purchase

  function Min(a: int, b: int): int { if a <= b then a else b }

  /** The goods one visit moves: the least of stock, demand and limit, and nothing from an empty storage. */
  function Purchase(stock: int, demand: int, limit: nat): int {
    if stock <= 0 then 0 else Min(stock, Min(demand, limit))
  }

  /** Stock and demand after a purchase. */
  function AfterPurchase(stock: int, demand: int, limit: nat): (int, int) {
    var q := Purchase(stock, demand, limit);
    (stock - q, demand - q)
  }

  /** The arrays of the program, and its functions that change them. */
  class Market {
    const remains: array<int>
    const demands: array<int>
    const restrict: nat
    const delivery: nat

    ghost predicate Valid()
      reads this
    {
      remains != demands
    }

    /** The initialisation in main. */
    constructor (storages: nat, buyers: nat, startAmount: nat, startDemand: nat, restrict: nat, delivery: nat)
      ensures Valid() && fresh(remains) && fresh(demands)
      ensures this.restrict == restrict && this.delivery == delivery
      ensures remains[..] == seq(storages, _ => startAmount)
      ensures demands[..] == seq(buyers, _ => startDemand)
    {
      this.restrict, this.delivery := restrict, delivery;
      remains := new int[storages](_ => startAmount);
      demands := new int[buyers](_ => startDemand);
    }

    method Provide(storageIndex: nat)
      requires Valid() && storageIndex < remains.Length
      modifies remains
      ensures remains[..] == old(remains[..])[storageIndex := old(remains[storageIndex]) + delivery]
    {
      remains[storageIndex] := remains[storageIndex] + delivery;
    }

    method Buy(storageIndex: nat, buyer: nat)
      requires Valid() && storageIndex < remains.Length && buyer < demands.Length
      modifies remains, demands
      ensures var (stock, demand) := AfterPurchase(old(remains[storageIndex]), old(demands[buyer]), restrict);
              && remains[..] == old(remains[..])[storageIndex := stock]
              && demands[..] == old(demands[..])[buyer := demand]
    {
      if remains[storageIndex] > 0 {
        if remains[storageIndex] <= restrict && demands[buyer] >= remains[storageIndex] {
          demands[buyer] := demands[buyer] - remains[storageIndex];
          remains[storageIndex] := 0;
          return;
        } else if remains[storageIndex] <= restrict && demands[buyer] < remains[storageIndex] {
          remains[storageIndex] := remains[storageIndex] - demands[buyer];
          demands[buyer] := 0;
          return;
        } else if remains[storageIndex] > restrict && demands[buyer] >= restrict {
          remains[storageIndex] := remains[storageIndex] - restrict;
          demands[buyer] := demands[buyer] - restrict;
          return;
        } else if remains[storageIndex] > restrict && demands[buyer] < restrict {
          remains[storageIndex] := remains[storageIndex] - demands[buyer];
          demands[buyer] := 0;
          return;
        }
      }
    }
  }

  // ------------------------------------------------------------------ the threads

  /** A buyer's program: the while test, the unlocked look at a storage, the trylock, and buy under the lock.
      EmptyShelf, DropDemand and DropLimit stand between the two assignments of a branch of buy;
      taken is a history variable, the amount the first assignment took off the demand. */
  datatype BuyerPc =
    | Test
    | Look(i: nat)
    | TryLock(i: nat)
    | Inside(i: nat)
    | EmptyShelf(i: nat, taken: int)
    | DropDemand(i: nat)
    | DropLimit(i: nat)
    | Leaving(i: nat)
    | Asleep
    | Done

  datatype ProviderPc = Seek(i: nat) | Unload(i: nat) | Unlock(i: nat) | Rest

  datatype Thread = Buyer(b: nat) | Provider(p: nat)

  /** purchases counts the non-zero purchases. */
  datatype BuyerState = BuyerState(pc: BuyerPc, demand: int, purchases: nat)

  datatype Storage = Storage(stock: int, owner: Option<Thread>)

  datatype State = State(limit: nat, delivery: nat, storages: seq<Storage>,
                         buyers: seq<BuyerState>, providers: seq<ProviderPc>, deliveries: nat)

  /** The storage whose lock a thread at this point has taken and not yet released. */
  function Holding(pc: BuyerPc): Option<nat> {
    if pc.Inside? || pc.EmptyShelf? || pc.DropDemand? || pc.DropLimit? || pc.Leaving? then Some(pc.i) else None
  }

  function HoldingP(pc: ProviderPc): Option<nat> {
    if pc.Unload? || pc.Unlock? then Some(pc.i) else None
  }

  function HeldBy(s: State, t: Thread): Option<nat> {
    match t
    case Buyer(b) => if b < |s.buyers| then Holding(s.buyers[b].pc) else None
    case Provider(p) => if p < |s.providers| then HoldingP(s.providers[p]) else None
  }

  /** The branch of buy, and its first assignment. */
  function Decide(limit: nat, i: nat, x: BuyerState, st: Storage): (BuyerState, Storage) {
    var stock, demand := st.stock, x.demand;
    if stock <= 0 then (x.(pc := Leaving(i)), st)
    else if stock <= limit && demand >= stock then
      (BuyerState(EmptyShelf(i, stock), demand - stock, x.purchases + 1), st)
    else if stock <= limit || demand < limit then
      (BuyerState(DropDemand(i), demand, if demand == 0 then x.purchases else x.purchases + 1),
       st.(stock := stock - demand))
    else
      (BuyerState(DropLimit(i), demand, if limit == 0 then x.purchases else x.purchases + 1),
       st.(stock := stock - limit))
  }

  /** One step of buyer b at storage i, which it looks at, locks, buys from or unlocks. */
  function VisitStep(limit: nat, b: nat, i: nat, x: BuyerState, st: Storage): (BuyerState, Storage) {
    match x.pc
    case Look(_) => (x.(pc := if st.stock > 0 then TryLock(i) else Look(i + 1)), st)
    case TryLock(_) =>
      if st.owner.None? then (x.(pc := Inside(i)), st.(owner := Some(Buyer(b)))) else (x.(pc := Look(i + 1)), st)
    case Inside(_) => Decide(limit, i, x, st)
    case EmptyShelf(_, _) => (x.(pc := Leaving(i)), st.(stock := 0))
    case DropDemand(_) => (x.(pc := Leaving(i), demand := 0), st)
    case DropLimit(_) => (x.(pc := Leaving(i), demand := x.demand - limit), st)
    case Leaving(_) => (x.(pc := Look(i + 1)), st.(owner := None))
    case _ => (x, st)
  }

  function DeliveryStep(delivery: nat, p: nat, i: nat, pc: ProviderPc, st: Storage): (ProviderPc, Storage) {
    match pc
    case Seek(_) => if st.owner.None? then (Unload(i), st.(owner := Some(Provider(p)))) else (Seek(i + 1), st)
    case Unload(_) => (Unlock(i), st.(stock := st.stock + delivery))
    case Unlock(_) => (Rest, st.(owner := None))
    case Rest => (pc, st)
  }

  /** The storage a thread's next step works on, if any. */
  predicate AtStorage(s: State, pc: BuyerPc) {
    !pc.Test? && !pc.Asleep? && !pc.Done? && pc.i < |s.storages|
  }

  function BuyerStep(s: State, b: nat): State
    requires b < |s.buyers|
  {
    var x := s.buyers[b];
    if AtStorage(s, x.pc) then
      var (x', st') := VisitStep(s.limit, b, x.pc.i, x, s.storages[x.pc.i]);
      s.(buyers := s.buyers[b := x'], storages := s.storages[x.pc.i := st'])
    else
      var pc' := if x.pc.Test? then if x.demand > 0 then Look(0) else Done
                 else if x.pc.Look? then Asleep
                 else if x.pc.Asleep? then Test
                 else x.pc;
      s.(buyers := s.buyers[b := x.(pc := pc')])
  }

  function ProviderStep(s: State, p: nat): State
    requires p < |s.providers|
  {
    var pc := s.providers[p];
    if !pc.Rest? && pc.i < |s.storages| then
      var (pc', st') := DeliveryStep(s.delivery, p, pc.i, pc, s.storages[pc.i]);
      s.(providers := s.providers[p := pc'], storages := s.storages[pc.i := st'],
         deliveries := if pc.Unload? then s.deliveries + 1 else s.deliveries)
    else s.(providers := s.providers[p := Seek(0)])
  }

  predicate IsThread(s: State, t: Thread) {
    match t
    case Buyer(b) => b < |s.buyers|
    case Provider(p) => p < |s.providers|
  }

  function Step(s: State, t: Thread): State
    requires IsThread(s, t)
  {
    match t
    case Buyer(b) => BuyerStep(s, b)
    case Provider(p) => ProviderStep(s, p)
  }

  ghost predicate Init(s: State, startAmount: nat, startDemand: nat) {
    && (forall i | 0 <= i < |s.storages| :: s.storages[i] == Storage(startAmount, None))
    && (forall b | 0 <= b < |s.buyers| :: s.buyers[b] == BuyerState(Test, startDemand, 0))
    && (forall p | 0 <= p < |s.providers| :: s.providers[p] == Seek(0))
    && s.deliveries == 0
  }

  // --------------------------------------------------------------------- invariants

  /** Goods on one side of a half-done purchase: off the stock and not yet off the demand, or the other way round. */
  function InHand(limit: nat, x: BuyerState): int {
    match x.pc
    case EmptyShelf(_, taken) => -taken
    case DropDemand(_) => x.demand
    case DropLimit(_) => limit
    case _ => 0
  }

  function StockSum(storages: seq<Storage>): int {
    if storages == [] then 0 else StockSum(storages[..|storages| - 1]) + storages[|storages| - 1].stock
  }

  function DemandSum(buyers: seq<BuyerState>): int {
    if buyers == [] then 0 else DemandSum(buyers[..|buyers| - 1]) + buyers[|buyers| - 1].demand
  }

  function HandSum(limit: nat, buyers: seq<BuyerState>): int {
    if buyers == [] then 0 else HandSum(limit, buyers[..|buyers| - 1]) + InHand(limit, buyers[|buyers| - 1])
  }

  /** What a buyer has taken so far out of an initial demand. */
  function Taken(limit: nat, x: BuyerState, start: int): int {
    start - x.demand + if x.pc.EmptyShelf? then 0 else InHand(limit, x)
  }

  ghost predicate BuyerOk(s: State, b: nat, start: int)
    requires b < |s.buyers|
  {
    var x := s.buyers[b];
    && 0 <= x.demand
    && x.purchases <= Taken(s.limit, x, start) <= s.limit * x.purchases
    && (x.pc.Look? ==> x.pc.i <= |s.storages|)
    && (x.pc.TryLock? ==> x.pc.i < |s.storages|)
    && (Holding(x.pc).Some? ==> x.pc.i < |s.storages| && s.storages[x.pc.i].owner == Some(Buyer(b)))
    && (x.pc.EmptyShelf? ==> s.storages[x.pc.i].stock == x.pc.taken > 0)
    && (x.pc.DropDemand? ==> x.demand <= s.limit)
    && (x.pc.DropLimit? ==> s.limit <= x.demand)
    && (x.pc.Done? ==> x.demand == 0)
  }

  ghost predicate ProviderOk(s: State, p: nat)
    requires p < |s.providers|
  {
    var pc := s.providers[p];
    && (pc.Seek? ==> pc.i <= |s.storages|)
    && (HoldingP(pc).Some? ==> pc.i < |s.storages| && s.storages[pc.i].owner == Some(Provider(p)))
  }

  ghost predicate StorageOk(s: State, i: nat)
    requires i < |s.storages|
  {
    && 0 <= s.storages[i].stock
    && (s.storages[i].owner.Some? ==> HeldBy(s, s.storages[i].owner.value) == Some(i))
  }

  /** Stock minus open demand, with the goods in hand. */
  function Balance(s: State): int {
    StockSum(s.storages) - DemandSum(s.buyers) + HandSum(s.limit, s.buyers)
  }

  ghost predicate Inv(s: State, startAmount: nat, startDemand: nat) {
    && (forall b | 0 <= b < |s.buyers| :: BuyerOk(s, b, startDemand))
    && (forall p | 0 <= p < |s.providers| :: ProviderOk(s, p))
    && (forall i | 0 <= i < |s.storages| :: StorageOk(s, i))
    && Balance(s) == |s.storages| * startAmount - |s.buyers| * startDemand + s.delivery * s.deliveries
  }

  lemma {:induction false} InitialSums(storages: seq<Storage>, buyers: seq<BuyerState>,
                                       limit: nat, amount: nat, demand: nat)
    requires forall i | 0 <= i < |storages| :: storages[i].stock == amount
    requires forall b | 0 <= b < |buyers| :: buyers[b].demand == demand && buyers[b].pc == Test
    ensures StockSum(storages) == |storages| * amount
    ensures DemandSum(buyers) == |buyers| * demand && HandSum(limit, buyers) == 0
    decreases |storages| + |buyers|
  {
    if storages != [] {
      InitialSums(storages[..|storages| - 1], buyers, limit, amount, demand);
    } else if buyers != [] {
      InitialSums(storages, buyers[..|buyers| - 1], limit, amount, demand);
    }
  }

  lemma InitInv(s: State, startAmount: nat, startDemand: nat)
    requires Init(s, startAmount, startDemand)
    ensures Inv(s, startAmount, startDemand)
  {
    InitialSums(s.storages, s.buyers, s.limit, startAmount, startDemand);
  }

  lemma {:induction false} StockUpdate(storages: seq<Storage>, i: nat, st: Storage)
    requires i < |storages|
    ensures StockSum(storages[i := st]) == StockSum(storages) - storages[i].stock + st.stock
  {
    var n := |storages| - 1;
    if i == n {
      assert storages[i := st][..n] == storages[..n];
    } else {
      assert storages[i := st][..n] == storages[..n][i := st];
      StockUpdate(storages[..n], i, st);
    }
  }

  lemma {:induction false} BuyerUpdate(limit: nat, buyers: seq<BuyerState>, b: nat, x: BuyerState)
    requires b < |buyers|
    ensures DemandSum(buyers[b := x]) == DemandSum(buyers) - buyers[b].demand + x.demand
    ensures HandSum(limit, buyers[b := x]) == HandSum(limit, buyers) - InHand(limit, buyers[b]) + InHand(limit, x)
  {
    var n := |buyers| - 1;
    if b == n {
      assert buyers[b := x][..n] == buyers[..n];
    } else {
      assert buyers[b := x][..n] == buyers[..n][b := x];
      BuyerUpdate(limit, buyers[..n], b, x);
    }
  }

  /** One visit step seen alone: no goods appear or vanish, and nothing goes negative. */
  lemma VisitIsFair(s: State, b: nat, start: int)
    requires b < |s.buyers| && BuyerOk(s, b, start) && AtStorage(s, s.buyers[b].pc)
    requires StorageOk(s, s.buyers[b].pc.i)
    ensures var x := s.buyers[b];
            var st := s.storages[x.pc.i];
            var (x', st') := VisitStep(s.limit, b, x.pc.i, x, st);
            && st'.stock - x'.demand + InHand(s.limit, x') == st.stock - x.demand + InHand(s.limit, x)
            && 0 <= st'.stock && 0 <= x'.demand
            && x'.purchases <= Taken(s.limit, x', start) <= s.limit * x'.purchases
  {
    var x := s.buyers[b];
    var (x', _) := VisitStep(s.limit, b, x.pc.i, x, s.storages[x.pc.i]);
    if x.pc.Inside? {
      DecideIsFair(s.limit, x.pc.i, x, s.storages[x.pc.i], start);
    } else {
      assert x'.purchases == x.purchases && Taken(s.limit, x', start) == Taken(s.limit, x, start);
    }
  }

  /** The first half of a purchase. */
  lemma DecideIsFair(limit: nat, i: nat, x: BuyerState, st: Storage, start: int)
    requires x.pc == Inside(i) && 0 <= x.demand && 0 <= st.stock
    requires x.purchases <= start - x.demand <= limit * x.purchases
    ensures var (x', st') := Decide(limit, i, x, st);
            && st'.stock - x'.demand + InHand(limit, x') == st.stock - x.demand
            && 0 <= st'.stock && 0 <= x'.demand
            && x'.purchases <= Taken(limit, x', start) <= limit * x'.purchases
  {
    assert limit * (x.purchases + 1) == limit * x.purchases + limit;
  }

  /** Whoever holds a lock finds its storage untouched by the steps of others, and a buyer its own demand too. */
  lemma OthersKeepOut(s: State, t: Thread, i: nat, startAmount: nat, startDemand: nat)
    requires Inv(s, startAmount, startDemand) && IsThread(s, t)
    requires i < |s.storages| && s.storages[i].owner.Some? && s.storages[i].owner != Some(t)
    ensures |Step(s, t).storages| == |s.storages| && Step(s, t).storages[i] == s.storages[i]
    ensures HeldBy(Step(s, t), s.storages[i].owner.value) == Some(i)
    ensures forall b | 0 <= b < |s.buyers| && t != Buyer(b) ::
              |Step(s, t).buyers| == |s.buyers| && Step(s, t).buyers[b] == s.buyers[b]
  {
    assert StorageOk(s, i);
    match t
    case Buyer(b) => assert BuyerOk(s, b, startDemand);
    case Provider(p) => assert ProviderOk(s, p);
  }

  lemma BuyerStepBalance(s: State, b: nat, startAmount: nat, startDemand: nat)
    requires Inv(s, startAmount, startDemand) && b < |s.buyers|
    ensures Balance(BuyerStep(s, b)) == Balance(s)
  {
    var s' := BuyerStep(s, b);
    var x := s.buyers[b];
    assert BuyerOk(s, b, startDemand);
    BuyerUpdate(s.limit, s.buyers, b, s'.buyers[b]);
    if AtStorage(s, x.pc) {
      assert StorageOk(s, x.pc.i);
      VisitIsFair(s, b, startDemand);
      StockUpdate(s.storages, x.pc.i, s'.storages[x.pc.i]);
    }
  }

  lemma BuyerStepSelf(s: State, b: nat, startAmount: nat, startDemand: nat)
    requires Inv(s, startAmount, startDemand) && b < |s.buyers|
    ensures BuyerOk(BuyerStep(s, b), b, startDemand)
  {
    assert BuyerOk(s, b, startDemand);
    if AtStorage(s, s.buyers[b].pc) {
      assert StorageOk(s, s.buyers[b].pc.i);
      VisitIsFair(s, b, startDemand);
    }
  }

  lemma BuyerStepOthers(s: State, b: nat, c: nat, startAmount: nat, startDemand: nat)
    requires Inv(s, startAmount, startDemand) && b < |s.buyers| && c < |s.buyers| && b != c
    ensures BuyerOk(BuyerStep(s, b), c, startDemand)
  {
    assert BuyerOk(s, c, startDemand);
    if Holding(s.buyers[c].pc).Some? {
      OthersKeepOut(s, Buyer(b), s.buyers[c].pc.i, startAmount, startDemand);
    }
  }

  lemma BuyerStepStorages(s: State, b: nat, i: nat, startAmount: nat, startDemand: nat)
    requires Inv(s, startAmount, startDemand) && b < |s.buyers| && i < |s.storages|
    ensures StorageOk(BuyerStep(s, b), i)
  {
    assert BuyerOk(s, b, startDemand);
    assert StorageOk(s, i);
    if AtStorage(s, s.buyers[b].pc) {
      assert StorageOk(s, s.buyers[b].pc.i);
      VisitIsFair(s, b, startDemand);
    }
  }

  lemma BuyerStepProviders(s: State, b: nat, p: nat, startAmount: nat, startDemand: nat)
    requires Inv(s, startAmount, startDemand) && b < |s.buyers| && p < |s.providers|
    ensures ProviderOk(BuyerStep(s, b), p)
  {
    assert BuyerOk(s, b, startDemand);
    assert ProviderOk(s, p);
  }

  lemma BuyerStepInv(s: State, b: nat, startAmount: nat, startDemand: nat)
    requires Inv(s, startAmount, startDemand) && b < |s.buyers|
    ensures Inv(BuyerStep(s, b), startAmount, startDemand)
  {
    var s' := BuyerStep(s, b);
    BuyerStepBalance(s, b, startAmount, startDemand);
    forall c | 0 <= c < |s'.buyers| ensures BuyerOk(s', c, startDemand) {
      if c == b {
        BuyerStepSelf(s, b, startAmount, startDemand);
      } else {
        BuyerStepOthers(s, b, c, startAmount, startDemand);
      }
    }
    forall p | 0 <= p < |s'.providers| ensures ProviderOk(s', p) {
      BuyerStepProviders(s, b, p, startAmount, startDemand);
    }
    forall i | 0 <= i < |s'.storages| ensures StorageOk(s', i) {
      BuyerStepStorages(s, b, i, startAmount, startDemand);
    }
  }

  lemma ProviderStepInv(s: State, p: nat, startAmount: nat, startDemand: nat)
    requires Inv(s, startAmount, startDemand) && p < |s.providers|
    ensures Inv(ProviderStep(s, p), startAmount, startDemand)
  {
    var s' := ProviderStep(s, p);
    var pc := s.providers[p];
    assert ProviderOk(s, p);
    if !pc.Rest? && pc.i < |s.storages| {
      assert StorageOk(s, pc.i);
      StockUpdate(s.storages, pc.i, s'.storages[pc.i]);
      assert s.delivery * (s.deliveries + 1) == s.delivery * s.deliveries + s.delivery;
    }
    forall b | 0 <= b < |s'.buyers| ensures BuyerOk(s', b, startDemand) {
      assert BuyerOk(s, b, startDemand);
    }
    forall q | 0 <= q < |s'.providers| ensures ProviderOk(s', q) {
      assert ProviderOk(s, q);
    }
    forall i | 0 <= i < |s'.storages| ensures StorageOk(s', i) {
      assert StorageOk(s, i);
    }
  }

  /** Every step of every thread keeps the invariant. */
  lemma StepInv(s: State, t: Thread, startAmount: nat, startDemand: nat)
    requires Inv(s, startAmount, startDemand) && IsThread(s, t)
    ensures Inv(Step(s, t), startAmount, startDemand)
  {
    match t
    case Buyer(b) => BuyerStepInv(s, b, startAmount, startDemand);
    case Provider(p) => ProviderStepInv(s, p, startAmount, startDemand);
  }

  // -------------------------------------------------------------------------- runs

  ghost predicate Follows(trace: seq<State>, i: nat)
    requires i + 1 < |trace|
  {
    exists t :: IsThread(trace[i], t) && trace[i + 1] == Step(trace[i], t)
  }

  /** Any interleaving of the threads from the initial state. */
  ghost predicate Run(trace: seq<State>, startAmount: nat, startDemand: nat) {
    && |trace| > 0 && Init(trace[0], startAmount, startDemand)
    && forall i | 0 <= i < |trace| - 1 :: Follows(trace, i)
  }

  lemma {:induction false} RunInv(trace: seq<State>, n: nat, startAmount: nat, startDemand: nat)
    requires Run(trace, startAmount, startDemand) && n < |trace|
    ensures Inv(trace[n], startAmount, startDemand)
  {
    if n == 0 {
      InitInv(trace[0], startAmount, startDemand);
    } else {
      RunInv(trace, n - 1, startAmount, startDemand);
      assert Follows(trace, n - 1);
      var t :| IsThread(trace[n - 1], t) && trace[n] == Step(trace[n - 1], t);
      StepInv(trace[n - 1], t, startAmount, startDemand);
    }
  }

  /** In every state of every interleaving: nothing is negative, and stock plus goods taken is the
      initial stock plus the deliveries, counting goods in hand; outside purchases, exactly. */
  lemma GoodsAreConserved(trace: seq<State>, n: nat, startAmount: nat, startDemand: nat)
    requires Run(trace, startAmount, startDemand) && n < |trace|
    ensures var s := trace[n];
            && (forall i | 0 <= i < |s.storages| :: 0 <= s.storages[i].stock)
            && (forall b | 0 <= b < |s.buyers| :: 0 <= s.buyers[b].demand)
            && StockSum(s.storages) + (|s.buyers| * startDemand - DemandSum(s.buyers)) + HandSum(s.limit, s.buyers)
               == |s.storages| * startAmount + s.delivery * s.deliveries
            && ((forall b | 0 <= b < |s.buyers| :: Holding(s.buyers[b].pc).None?) ==> HandSum(s.limit, s.buyers) == 0)
  {
    var s := trace[n];
    RunInv(trace, n, startAmount, startDemand);
    forall i | 0 <= i < |s.storages| ensures 0 <= s.storages[i].stock {
      assert StorageOk(s, i);
    }
    forall b | 0 <= b < |s.buyers| ensures 0 <= s.buyers[b].demand {
      assert BuyerOk(s, b, startDemand);
    }
    if forall b | 0 <= b < |s.buyers| :: Holding(s.buyers[b].pc).None? {
      EmptyHands(s.limit, s.buyers);
    }
  }

  lemma {:induction false} EmptyHands(limit: nat, buyers: seq<BuyerState>)
    requires forall b | 0 <= b < |buyers| :: Holding(buyers[b].pc).None?
    ensures HandSum(limit, buyers) == 0
  {
    if buyers != [] {
      EmptyHands(limit, buyers[..|buyers| - 1]);
    }
  }

  /** In every state of every interleaving: a lock is owned by exactly the threads between their
      trylock and unlock of that storage, so two threads never work on one storage. */
  lemma MutualExclusion(trace: seq<State>, n: nat, t: Thread, u: Thread, i: nat, startAmount: nat, startDemand: nat)
    requires Run(trace, startAmount, startDemand) && n < |trace|
    ensures HeldBy(trace[n], t) == Some(i) <==> i < |trace[n].storages| && trace[n].storages[i].owner == Some(t)
    ensures HeldBy(trace[n], t) == HeldBy(trace[n], u) == Some(i) ==> t == u
  {
    RunInv(trace, n, startAmount, startDemand);
    LockHolder(trace[n], t, i, startAmount, startDemand);
    LockHolder(trace[n], u, i, startAmount, startDemand);
  }

  lemma LockHolder(s: State, t: Thread, i: nat, startAmount: nat, startDemand: nat)
    requires Inv(s, startAmount, startDemand)
    ensures HeldBy(s, t) == Some(i) <==> i < |s.storages| && s.storages[i].owner == Some(t)
  {
    if HeldBy(s, t) == Some(i) {
      match t
      case Buyer(b) => assert BuyerOk(s, b, startDemand);
      case Provider(p) => assert ProviderOk(s, p);
    }
    if i < |s.storages| {
      assert StorageOk(s, i);
    }
  }

  // -------------------------------------------------------------------- pigeonhole

  function Threads(buyers: nat, providers: nat): (ts: set<Thread>)
    ensures |ts| == buyers + providers
    ensures forall t :: t in ts <==> match t case Buyer(b) => b < buyers case Provider(p) => p < providers
  {
    if buyers > 0 then Threads(buyers - 1, providers) + {Buyer(buyers - 1)}
    else if providers > 0 then Threads(0, providers - 1) + {Provider(providers - 1)}
    else {}
  }

  /** As many owners as locked storages, when no thread owns two. */
  lemma {:induction false} OwnersOf(s: State, n: nat) returns (owners: set<Thread>)
    requires n <= |s.storages|
    requires forall i | 0 <= i < n :: s.storages[i].owner.Some? && StorageOk(s, i)
    ensures |owners| == n
    ensures forall t | t in owners :: HeldBy(s, t).Some? && HeldBy(s, t).value < n
  {
    if n == 0 {
      owners := {};
    } else {
      var rest := OwnersOf(s, n - 1);
      var t := s.storages[n - 1].owner.value;
      assert StorageOk(s, n - 1);
      assert t !in rest;
      owners := rest + {t};
    }
  }

  /** When threads do not outnumber storages, a thread that holds no lock has a storage it could lock. */
  lemma FreeStorageExists(trace: seq<State>, n: nat, t: Thread, startAmount: nat, startDemand: nat)
    requires Run(trace, startAmount, startDemand) && n < |trace|
    requires t in Threads(|trace[n].buyers|, |trace[n].providers|) && HeldBy(trace[n], t).None?
    requires |trace[n].buyers| + |trace[n].providers| <= |trace[n].storages|
    ensures exists i | 0 <= i < |trace[n].storages| :: trace[n].storages[i].owner.None?
  {
    var s := trace[n];
    RunInv(trace, n, startAmount, startDemand);
    if forall i | 0 <= i < |s.storages| :: s.storages[i].owner.Some? {
      var owners := OwnersOf(s, |s.storages|);
      var all := Threads(|s.buyers|, |s.providers|);
      assert owners <= all - {t};
      SubsetSize(owners, all - {t});
      assert false;
    }
  }

  // --------------------------------------------------------------------- purchases

  ghost predicate OtherFollows(trace: seq<State>, b: nat, i: nat)
    requires i + 1 < |trace|
  {
    exists t :: IsThread(trace[i], t) && t != Buyer(b) && trace[i + 1] == Step(trace[i], t)
  }

  /** Any stretch of a run in which buyer b does not move. */
  ghost predicate OthersRun(trace: seq<State>, b: nat) {
    && |trace| > 0
    && forall i | 0 <= i < |trace| - 1 :: OtherFollows(trace, b, i)
  }

  lemma {:induction false} LockKeepsOthersOut(trace: seq<State>, b: nat, i: nat, n: nat,
                                              startAmount: nat, startDemand: nat)
    requires OthersRun(trace, b) && Inv(trace[0], startAmount, startDemand)
    requires b < |trace[0].buyers| && Holding(trace[0].buyers[b].pc) == Some(i) && n < |trace|
    ensures Inv(trace[n], startAmount, startDemand)
    ensures trace[n].limit == trace[0].limit
    ensures |trace[n].buyers| == |trace[0].buyers| && trace[n].buyers[b] == trace[0].buyers[b]
    ensures i < |trace[0].storages| == |trace[n].storages| && trace[n].storages[i] == trace[0].storages[i]
  {
    assert BuyerOk(trace[0], b, startDemand);
    if n > 0 {
      LockKeepsOthersOut(trace, b, i, n - 1, startAmount, startDemand);
      var s := trace[n - 1];
      assert OtherFollows(trace, b, n - 1);
      var t :| IsThread(s, t) && t != Buyer(b) && trace[n] == Step(s, t);
      OthersKeepOut(s, t, i, startAmount, startDemand);
      StepInv(s, t, startAmount, startDemand);
    }
  }

  /** The two halves of a visit make up one purchase, whatever the other threads do in between. */
  lemma PurchaseIsAtomic(s: State, b: nat, between: seq<State>, startAmount: nat, startDemand: nat)
    requires Inv(s, startAmount, startDemand) && b < |s.buyers| && s.buyers[b].pc.Inside?
    requires OthersRun(between, b) && between[0] == BuyerStep(s, b)
    ensures var last := between[|between| - 1];
            b < |last.buyers| && s.buyers[b].pc.i < |s.storages| && s.buyers[b].pc.i < |last.storages|
    ensures var i := s.buyers[b].pc.i;
            var last := between[|between| - 1];
            var end := if last.buyers[b].pc.Leaving? then last else BuyerStep(last, b);
            var q := Purchase(s.storages[i].stock, s.buyers[b].demand, s.limit);
            && |end.buyers| == |s.buyers| && |end.storages| == |s.storages|
            && end.storages[i] == s.storages[i].(stock := s.storages[i].stock - q)
            && end.buyers[b] == BuyerState(Leaving(i), s.buyers[b].demand - q,
                                           s.buyers[b].purchases + if q > 0 then 1 else 0)
  {
    var i := s.buyers[b].pc.i;
    assert BuyerOk(s, b, startDemand);
    assert StorageOk(s, i);
    BuyerStepInv(s, b, startAmount, startDemand);
    LockKeepsOthersOut(between, b, i, |between| - 1, startAmount, startDemand);
  }

  /** A buyer who is done has bought exactly its demand, in at least demand / limit (rounded up)
      and at most demand non-zero purchases. */
  lemma PurchasesOfDoneBuyer(trace: seq<State>, n: nat, b: nat, startAmount: nat, startDemand: nat)
    requires Run(trace, startAmount, startDemand) && n < |trace|
    requires b < |trace[n].buyers| && trace[n].buyers[b].pc.Done?
    ensures trace[n].buyers[b].demand == 0
    ensures trace[n].buyers[b].purchases <= startDemand
    ensures trace[n].limit > 0 ==>
            (startDemand + trace[n].limit - 1) / trace[n].limit <= trace[n].buyers[b].purchases
  {
    RunInv(trace, n, startAmount, startDemand);
    assert BuyerOk(trace[n], b, startDemand);
    if trace[n].limit > 0 {
      CeilingBound(startDemand, trace[n].limit, trace[n].buyers[b].purchases);
    }
  }

  lemma CeilingBound(d: nat, r: nat, k: nat)
    requires r > 0 && d <= r * k
    ensures (d + r - 1) / r <= k
  {
    var q := (d + r - 1) / r;
    assert q * r <= d + r - 1 < (k + 1) * r;
    Monotone(q, k + 1, r);
  }

  lemma Monotone(a: int, b: int, r: nat)
    ensures a >= b ==> a * r >= b * r
  {
  }

  // ------------------------------------------------------- the loops of the threads

  /** What the other threads do between two steps of thread t, as a schedule lists them. */
  function OthersAct(s: State, t: Thread, schedule: seq<Thread>): State
    decreases |schedule|
  {
    if schedule == [] then s
    else OthersAct(if schedule[0] != t && IsThread(s, schedule[0]) then Step(s, schedule[0]) else s, t, schedule[1..])
  }

  /** Thread t is where it was, and so is the storage it holds; deliveries are only added. */
  ghost predicate Kept(s: State, t: Thread, s': State) {
    && s'.limit == s.limit && s'.delivery == s.delivery && s.deliveries <= s'.deliveries
    && |s'.buyers| == |s.buyers| && |s'.providers| == |s.providers| && |s'.storages| == |s.storages|
    && (t.Buyer? && t.b < |s.buyers| ==> s'.buyers[t.b] == s.buyers[t.b])
    && (t.Provider? && t.p < |s.providers| ==> s'.providers[t.p] == s.providers[t.p])
    && (HeldBy(s, t).Some? && HeldBy(s, t).value < |s.storages| ==>
          s'.storages[HeldBy(s, t).value] == s.storages[HeldBy(s, t).value])
  }

  lemma StepKeeps(s: State, t: Thread, u: Thread, startAmount: nat, startDemand: nat)
    requires Inv(s, startAmount, startDemand) && IsThread(s, u) && t != u
    ensures Kept(s, t, Step(s, u))
  {
    if HeldBy(s, t).Some? && HeldBy(s, t).value < |s.storages| {
      LockHolder(s, t, HeldBy(s, t).value, startAmount, startDemand);
      OthersKeepOut(s, u, HeldBy(s, t).value, startAmount, startDemand);
    }
  }

  /** A state that some interleaving ends in, to which all the theorems about runs apply. */
  ghost predicate Reachable(s: State, startAmount: nat, startDemand: nat) {
    exists run :: Run(run, startAmount, startDemand) && run[|run| - 1] == s
  }

  lemma ReachableInv(s: State, startAmount: nat, startDemand: nat)
    requires Reachable(s, startAmount, startDemand)
    ensures Inv(s, startAmount, startDemand)
  {
    var run :| Run(run, startAmount, startDemand) && run[|run| - 1] == s;
    RunInv(run, |run| - 1, startAmount, startDemand);
  }

  lemma InitReachable(s: State, startAmount: nat, startDemand: nat)
    requires Init(s, startAmount, startDemand)
    ensures Reachable(s, startAmount, startDemand)
  {
    assert Run([s], startAmount, startDemand) && [s][|[s]| - 1] == s;
  }

  lemma RunGoesOn(run: seq<State>, s: State, t: Thread, startAmount: nat, startDemand: nat)
    requires Run(run, startAmount, startDemand)
    requires IsThread(run[|run| - 1], t) && s == Step(run[|run| - 1], t)
    ensures Run(run + [s], startAmount, startDemand)
  {
    var more := run + [s];
    forall i | 0 <= i < |more| - 1 ensures Follows(more, i) {
      if i < |run| - 1 {
        assert Follows(run, i);
        FollowsSame(run, more, i);
      } else {
        assert IsThread(more[i], t) && more[i + 1] == s;
      }
    }
  }

  lemma FollowsSame(run: seq<State>, more: seq<State>, i: nat)
    requires i + 1 < |run| && run <= more && Follows(run, i)
    ensures Follows(more, i)
  {
    assert more[i] == run[i] && more[i + 1] == run[i + 1];
  }

  lemma StepReachable(s: State, t: Thread, startAmount: nat, startDemand: nat)
    requires Reachable(s, startAmount, startDemand) && IsThread(s, t)
    ensures Reachable(Step(s, t), startAmount, startDemand)
  {
    var run :| Run(run, startAmount, startDemand) && run[|run| - 1] == s;
    var next := Step(s, t);
    RunGoesOn(run, next, t, startAmount, startDemand);
    assert (run + [next])[|run + [next]| - 1] == next;
  }

  lemma {:induction false} OthersActKeeps(s: State, t: Thread, schedule: seq<Thread>,
                                          startAmount: nat, startDemand: nat)
    requires Reachable(s, startAmount, startDemand)
    ensures Reachable(OthersAct(s, t, schedule), startAmount, startDemand)
    ensures Kept(s, t, OthersAct(s, t, schedule))
    decreases |schedule|
  {
    if schedule != [] {
      var u := schedule[0];
      if u != t && IsThread(s, u) {
        StepReachable(s, u, startAmount, startDemand);
        ReachableInv(s, startAmount, startDemand);
        StepKeeps(s, t, u, startAmount, startDemand);
        OthersActKeeps(Step(s, u), t, schedule[1..], startAmount, startDemand);
      } else {
        OthersActKeeps(s, t, schedule[1..], startAmount, startDemand);
      }
    }
  }

  // ------------------------------------------- the steps of one thread under a schedule

  function Move(s: State, t: Thread): State { if IsThread(s, t) then Step(s, t) else s }

  /** The state in which thread t makes its step number k, after what the schedule lets the others do. */
  function Before(trace: seq<State>, t: Thread, k: nat, schedule: nat -> seq<Thread>): State
    requires k < |trace|
  {
    OthersAct(trace[k], t, schedule(k))
  }

  predicate MovesAt(trace: seq<State>, t: Thread, k: nat, schedule: nat -> seq<Thread>)
    requires k + 1 < |trace|
  {
    trace[k + 1] == Move(Before(trace, t, k, schedule), t)
  }

  /** The states after 0, 1, 2, .. steps of thread t. */
  ghost predicate IsTrace(trace: seq<State>, t: Thread, schedule: nat -> seq<Thread>) {
    |trace| > 0 && forall k | 0 <= k < |trace| - 1 :: MovesAt(trace, t, k, schedule)
  }

  lemma TraceGrows(trace: seq<State>, t: Thread, schedule: nat -> seq<Thread>)
    requires IsTrace(trace, t, schedule)
    ensures IsTrace(trace + [Move(Before(trace, t, |trace| - 1, schedule), t)], t, schedule)
  {
    var more := trace + [Move(Before(trace, t, |trace| - 1, schedule), t)];
    forall k | 0 <= k < |more| - 1 ensures MovesAt(more, t, k, schedule) {
      if k < |trace| - 1 {
        assert MovesAt(trace, t, k, schedule);
      }
    }
  }

  // ------------------------------------------------- every interleaving is a schedule

  lemma {:induction false} OthersActAppend(s: State, t: Thread, schedule: seq<Thread>, u: Thread)
    requires u != t && IsThread(OthersAct(s, t, schedule), u)
    ensures OthersAct(s, t, schedule + [u]) == Step(OthersAct(s, t, schedule), u)
    decreases |schedule|
  {
    if schedule == [] {
      OthersActOne(s, t, u);
    } else {
      assert (schedule + [u])[1..] == schedule[1..] + [u];
      var next := if schedule[0] != t && IsThread(s, schedule[0]) then Step(s, schedule[0]) else s;
      OthersActAppend(next, t, schedule[1..], u);
    }
  }

  lemma OthersActOne(s: State, t: Thread, u: Thread)
    requires u != t && IsThread(s, u)
    ensures OthersAct(s, t, [] + [u]) == Step(s, u)
  {
    assert OthersAct(Step(s, u), t, ([] + [u])[1..]) == Step(s, u);
  }

  function Reschedule(schedule: nat -> seq<Thread>, n: nat, turns: seq<Thread>): nat -> seq<Thread> {
    (k: nat) => if k == n then turns else schedule(k)
  }

  lemma PastIsScheduled(trace: seq<State>, t: Thread, schedule: nat -> seq<Thread>, turns: seq<Thread>)
    requires IsTrace(trace, t, schedule)
    ensures IsTrace(trace, t, Reschedule(schedule, |trace| - 1, turns))
  {
    var later := Reschedule(schedule, |trace| - 1, turns);
    forall k | 0 <= k < |trace| - 1 ensures MovesAt(trace, t, k, later) {
      assert MovesAt(trace, t, k, schedule);
    }
  }

  /** A step of another thread is appended to the schedule. */
  lemma ScheduleOther(trace: seq<State>, t: Thread, schedule: nat -> seq<Thread>, u: Thread)
    returns (schedule': nat -> seq<Thread>)
    requires IsTrace(trace, t, schedule) && u != t && IsThread(Before(trace, t, |trace| - 1, schedule), u)
    ensures IsTrace(trace, t, schedule')
    ensures Before(trace, t, |trace| - 1, schedule') == Step(Before(trace, t, |trace| - 1, schedule), u)
  {
    var n := |trace| - 1;
    OthersActAppend(trace[n], t, schedule(n), u);
    PastIsScheduled(trace, t, schedule, schedule(n) + [u]);
    schedule' := Reschedule(schedule, n, schedule(n) + [u]);
  }

  /** A step of the thread itself is appended to the trace. */
  lemma ScheduleOwn(trace: seq<State>, t: Thread, schedule: nat -> seq<Thread>)
    returns (trace': seq<State>, schedule': nat -> seq<Thread>)
    requires IsTrace(trace, t, schedule)
    ensures IsTrace(trace', t, schedule') && trace <= trace'
    ensures Before(trace', t, |trace'| - 1, schedule') == Move(Before(trace, t, |trace| - 1, schedule), t)
  {
    TraceGrows(trace, t, schedule);
    trace' := trace + [Move(Before(trace, t, |trace| - 1, schedule), t)];
    PastIsScheduled(trace', t, schedule, []);
    schedule' := Reschedule(schedule, |trace'| - 1, []);
  }

  lemma ScheduleTurn(trace: seq<State>, t: Thread, schedule: nat -> seq<Thread>, u: Thread)
    returns (trace': seq<State>, schedule': nat -> seq<Thread>)
    requires IsTrace(trace, t, schedule) && IsThread(Before(trace, t, |trace| - 1, schedule), u)
    ensures IsTrace(trace', t, schedule') && trace <= trace'
    ensures Before(trace', t, |trace'| - 1, schedule') == Step(Before(trace, t, |trace| - 1, schedule), u)
  {
    if u == t {
      trace', schedule' := ScheduleOwn(trace, t, schedule);
    } else {
      trace' := trace;
      schedule' := ScheduleOther(trace, t, schedule, u);
    }
  }

  ghost predicate Interleaving(run: seq<State>) {
    |run| > 0 && forall i | 0 <= i < |run| - 1 :: Follows(run, i)
  }

  lemma OneStepLess(run: seq<State>)
    requires Interleaving(run) && |run| > 1
    ensures Interleaving(run[..|run| - 1]) && run[..|run| - 1][|run| - 2] == run[|run| - 2]
    ensures Follows(run, |run| - 2)
  {
    var n := |run| - 1;
    forall i | 0 <= i < n - 1 ensures Follows(run[..n], i) {
      assert Follows(run, i);
      FollowsInPrefix(run, n, i);
    }
  }

  lemma FollowsInPrefix(run: seq<State>, n: nat, i: nat)
    requires i + 1 < n <= |run| && Follows(run, i)
    ensures Follows(run[..n], i)
  {
    assert run[..n][i] == run[i] && run[..n][i + 1] == run[i + 1];
  }

  /** However the threads take turns, some schedule says so: with it thread t makes its steps as listed in the
      trace, and the others bring it to the same end. What holds for every schedule holds for every interleaving. */
  lemma {:induction false} EveryInterleavingIsScheduled(run: seq<State>, t: Thread)
    returns (trace: seq<State>, schedule: nat -> seq<Thread>)
    requires Interleaving(run)
    ensures IsTrace(trace, t, schedule) && trace[0] == run[0]
    ensures Before(trace, t, |trace| - 1, schedule) == run[|run| - 1]
    decreases |run|
  {
    var n := |run| - 1;
    if n == 0 {
      trace, schedule := run, _ => [];
    } else {
      OneStepLess(run);
      trace, schedule := EveryInterleavingIsScheduled(run[..n], t);
      var u :| IsThread(run[n - 1], u) && run[n] == Step(run[n - 1], u);
      trace, schedule := ScheduleTurn(trace, t, schedule, u);
    }
  }

  // ------------------------------------------------------------- visits and turns

  /** What a visit to storage i that begins with step k takes: nothing unless the storage has stock when it is
      looked at and no owner when its lock is tried, and then one purchase from the stock of that moment. */
  function VisitAmount(trace: seq<State>, b: nat, k: nat, i: nat, schedule: nat -> seq<Thread>): int {
    if k + 1 >= |trace| then 0
    else
      var looked, tried := Before(trace, Buyer(b), k, schedule), Before(trace, Buyer(b), k + 1, schedule);
      if b < |looked.buyers| && i < |looked.storages| && looked.storages[i].stock > 0
         && i < |tried.storages| && tried.storages[i].owner.None?
      then Purchase(tried.storages[i].stock, looked.buyers[b].demand, looked.limit)
      else 0
  }

  /** The visits of a pass begin with the steps begins[0], begins[1], .. : what they take together, and how many
      of them take something. */
  function PassAmount(trace: seq<State>, b: nat, begins: seq<nat>, schedule: nat -> seq<Thread>): int {
    if begins == [] then 0
    else
      var i := |begins| - 1;
      PassAmount(trace, b, begins[..i], schedule) + VisitAmount(trace, b, begins[i], i, schedule)
  }

  function PassPurchases(trace: seq<State>, b: nat, begins: seq<nat>, schedule: nat -> seq<Thread>): nat {
    if begins == [] then 0
    else
      var i := |begins| - 1;
      PassPurchases(trace, b, begins[..i], schedule)
      + if VisitAmount(trace, b, begins[i], i, schedule) > 0 then 1 else 0
  }

  /** Buyer b comes to storage i after k steps. */
  predicate LooksAt(trace: seq<State>, b: nat, k: nat, i: nat) {
    k < |trace| && b < |trace[k].buyers| && trace[k].buyers[b].pc == Look(i)
  }

  /** The visits of a pass that starts after n steps. */
  ghost predicate AreVisits(trace: seq<State>, b: nat, n: nat, begins: seq<nat>) {
    forall i | 0 <= i < |begins| :: IsVisit(trace, b, n, begins, i)
  }

  predicate IsVisit(trace: seq<State>, b: nat, n: nat, begins: seq<nat>, i: nat)
    requires i < |begins|
  {
    && n <= begins[i] < |trace| - 1
    && (i == 0 ==> begins[i] == n)
    && LooksAt(trace, b, begins[i], i)
  }

  /** Steps made later change neither the visits nor what they take. */
  lemma {:induction false} PassIsPast(trace: seq<State>, later: seq<State>, b: nat, n: nat, begins: seq<nat>,
                                      schedule: nat -> seq<Thread>)
    requires trace <= later && AreVisits(trace, b, n, begins)
    ensures PassAmount(later, b, begins, schedule) == PassAmount(trace, b, begins, schedule)
    ensures PassPurchases(later, b, begins, schedule) == PassPurchases(trace, b, begins, schedule)
  {
    if begins != [] {
      var k := |begins| - 1;
      forall i | 0 <= i < k ensures IsVisit(trace, b, n, begins[..k], i) {
        assert IsVisit(trace, b, n, begins, i);
      }
      PassIsPast(trace, later, b, n, begins[..k], schedule);
      assert IsVisit(trace, b, n, begins, k);
    }
  }

  /** One more visit. */
  lemma PassGrows(trace: seq<State>, later: seq<State>, b: nat, n: nat, begins: seq<nat>, k: nat,
                  schedule: nat -> seq<Thread>)
    requires trace < later && AreVisits(trace, b, n, begins) && k == |trace| - 1 && LooksAt(trace, b, k, |begins|)
    requires n <= k && (begins == [] ==> k == n)
    ensures AreVisits(later, b, n, begins + [k])
    ensures var q := VisitAmount(later, b, k, |begins|, schedule);
            && PassAmount(later, b, begins + [k], schedule) == PassAmount(trace, b, begins, schedule) + q
            && PassPurchases(later, b, begins + [k], schedule)
               == PassPurchases(trace, b, begins, schedule) + if q > 0 then 1 else 0
  {
    var more := begins + [k];
    assert more[..|begins|] == begins;
    PassIsPast(trace, later, b, n, begins, schedule);
    forall i | 0 <= i < |more| ensures IsVisit(later, b, n, more, i) {
      if i < |begins| {
        assert IsVisit(trace, b, n, begins, i);
      }
    }
  }

  /** A visit keeps the totals of a pass within their bounds. */
  lemma AddVisit(limit: nat, i: nat, amount: nat, count: nat, q: nat) returns (amount': nat, count': nat)
    requires amount <= limit * i && count <= i && (amount > 0 <==> count > 0) && q <= limit
    ensures amount' == amount + q <= limit * (i + 1)
    ensures count' == count + (if q > 0 then 1 else 0) <= i + 1 && (amount' > 0 <==> count' > 0)
  {
    amount', count' := amount + q, count + if q > 0 then 1 else 0;
  }

  /** In its step number n + i provider p tries storage i. */
  predicate TriesAt(trace: seq<State>, p: nat, n: nat, i: nat, schedule: nat -> seq<Thread>) {
    && n + i < |trace|
    && var s := Before(trace, Provider(p), n + i, schedule);
       p < |s.providers| && s.providers[p] == Seek(i) && i < |s.storages|
  }

  predicate FindsFree(trace: seq<State>, p: nat, n: nat, i: nat, stock: int, schedule: nat -> seq<Thread>) {
    TriesAt(trace, p, n, i, schedule) && Before(trace, Provider(p), n + i, schedule).storages[i] == Storage(stock, None)
  }

  predicate FindsLocked(trace: seq<State>, p: nat, n: nat, i: nat, schedule: nat -> seq<Thread>) {
    TriesAt(trace, p, n, i, schedule) && Before(trace, Provider(p), n + i, schedule).storages[i].owner.Some?
  }

  ghost predicate AllLocked(trace: seq<State>, p: nat, n: nat, at: nat, schedule: nat -> seq<Thread>) {
    forall i | 0 <= i < at :: FindsLocked(trace, p, n, i, schedule)
  }

  lemma LockedIsPast(trace: seq<State>, later: seq<State>, p: nat, n: nat, at: nat, schedule: nat -> seq<Thread>)
    requires trace <= later && AllLocked(trace, p, n, at, schedule)
    ensures AllLocked(later, p, n, at, schedule)
  {
    forall i | 0 <= i < at ensures FindsLocked(later, p, n, i, schedule) {
      assert FindsLocked(trace, p, n, i, schedule);
    }
  }

  lemma OneMoreLocked(trace: seq<State>, p: nat, n: nat, at: nat, schedule: nat -> seq<Thread>)
    requires AllLocked(trace, p, n, at, schedule) && FindsLocked(trace, p, n, at, schedule)
    ensures AllLocked(trace, p, n, at + 1, schedule)
  {
  }

  /** Thread t begins a turn of its outer loop. */
  predicate BeginsTurn(s: State, t: Thread) {
    match t
    case Buyer(b) => b < |s.buyers| && s.buyers[b].pc == Look(0)
    case Provider(p) => p < |s.providers| && s.providers[p] == Seek(0)
  }

  /** Turns begin with the steps in begins, which are in ascending order. */
  ghost predicate AreTurns(trace: seq<State>, t: Thread, begins: seq<nat>) {
    forall k | 0 <= k < |begins| :: IsTurn(trace, t, begins, k)
  }

  predicate IsTurn(trace: seq<State>, t: Thread, begins: seq<nat>, k: nat)
    requires k < |begins|
  {
    && begins[k] < |trace| - 1 && BeginsTurn(trace[begins[k]], t)
    && (k > 0 ==> begins[k - 1] < begins[k])
  }

  lemma TurnsGrow(trace: seq<State>, later: seq<State>, t: Thread, begins: seq<nat>)
    requires trace != [] && trace < later && AreTurns(trace, t, begins) && BeginsTurn(trace[|trace| - 1], t)
    ensures AreTurns(later, t, begins + [|trace| - 1])
  {
    var more := begins + [|trace| - 1];
    forall k | 0 <= k < |more| ensures IsTurn(later, t, more, k) {
      if k < |begins| {
        assert IsTurn(trace, t, begins, k);
      } else if k > 0 {
        assert IsTurn(trace, t, begins, k - 1);
      }
    }
  }

  /** How often in a trace provider p has just locked a storage, which it then unloads at. */
  function Unloads(trace: seq<State>, p: nat): nat {
    if trace == [] then 0
    else
      var s := trace[|trace| - 1];
      Unloads(trace[..|trace| - 1], p) + if p < |s.providers| && s.providers[p].Unload? then 1 else 0
  }

  lemma UnloadsGrow(trace: seq<State>, s: State, p: nat)
    ensures Unloads(trace + [s], p)
            == Unloads(trace, p) + if p < |s.providers| && s.providers[p].Unload? then 1 else 0
  {
    assert (trace + [s])[..|trace|] == trace;
  }

  predicate BetweenHalves(pc: BuyerPc, i: nat) {
    (pc.EmptyShelf? || pc.DropDemand? || pc.DropLimit?) && pc.i == i
  }

  /** Both halves of buy at once. */
  function BothHalves(limit: nat, b: nat, i: nat, x: BuyerState, st: Storage): (BuyerState, Storage)
    requires x.pc == Inside(i)
  {
    var (x1, st1) := Decide(limit, i, x, st);
    if x1.pc.Leaving? then (x1, st1) else VisitStep(limit, b, i, x1, st1)
  }

  /** The two assignments of every branch of buy amount to one purchase, the same that Market.Buy makes. */
  lemma HalvesMakeOnePurchase(limit: nat, b: nat, i: nat, x: BuyerState, st: Storage)
    requires x.pc == Inside(i) && 0 <= x.demand
    ensures var (x1, _) := Decide(limit, i, x, st); x1.pc == Leaving(i) || BetweenHalves(x1.pc, i)
    ensures var (stock, demand) := AfterPurchase(st.stock, x.demand, limit);
            BothHalves(limit, b, i, x, st)
            == (BuyerState(Leaving(i), demand, x.purchases + if demand < x.demand then 1 else 0),
                st.(stock := stock))
  {
  }

  // ------------------------------------------------------------- a buyer on its own

  /** A schedule in which nobody else runs. */
  function Nobody(): nat -> seq<Thread> { _ => [] }

  function Max(a: int, b: int): int { if a >= b then a else b }

  /** What one pass can take from the first n storages. */
  function Supply(storages: seq<Storage>, n: nat, limit: nat): int
    requires n <= |storages|
  {
    if n == 0 then 0 else Supply(storages, n - 1, limit) + Max(0, Min(storages[n - 1].stock, limit))
  }

  lemma SoloStep(trace: seq<State>, b: nat)
    requires IsTrace(trace, Buyer(b), Nobody()) && b < |trace[|trace| - 1].buyers|
    ensures IsTrace(trace + [BuyerStep(trace[|trace| - 1], b)], Buyer(b), Nobody())
  {
    TraceGrows(trace, Buyer(b), Nobody());
  }

  /** Where it stands in its visit to storage i, and the storage, with everything else as in s. */
  function Put(s: State, b: nat, x: BuyerState, i: nat, st: Storage): State
    requires b < |s.buyers| && i < |s.storages|
  {
    s.(buyers := s.buyers[b := x], storages := s.storages[i := st])
  }

  lemma PutStep(s: State, b: nat, x: BuyerState, i: nat, st: Storage)
    requires b < |s.buyers| && i < |s.storages|
    requires AtStorage(s, x.pc) && x.pc.i == i
    ensures var (x', st') := VisitStep(s.limit, b, i, x, st);
            BuyerStep(Put(s, b, x, i, st), b) == Put(s, b, x', i, st')
  {
  }

  /** One step of a visit on its own. */
  lemma SoloVisitStep(trace: seq<State>, s: State, b: nat, x: BuyerState, i: nat, st: Storage)
    returns (trace': seq<State>)
    requires IsTrace(trace, Buyer(b), Nobody()) && b < |s.buyers| && i < |s.storages|
    requires trace[|trace| - 1] == Put(s, b, x, i, st) && AtStorage(s, x.pc) && x.pc.i == i
    ensures trace <= trace' && IsTrace(trace', Buyer(b), Nobody())
    ensures var (x', st') := VisitStep(s.limit, b, i, x, st); trace'[|trace'| - 1] == Put(s, b, x', i, st')
  {
    PutStep(s, b, x, i, st);
    SoloStep(trace, b);
    trace' := trace + [BuyerStep(trace[|trace| - 1], b)];
  }

  /** A visit to a free storage takes one purchase. */
  lemma SoloVisit(trace: seq<State>, b: nat, i: nat) returns (trace': seq<State>)
    requires IsTrace(trace, Buyer(b), Nobody())
    requires var s := trace[|trace| - 1];
             && b < |s.buyers| && i < |s.storages|
             && s.buyers[b].pc == Look(i) && 0 <= s.buyers[b].demand && s.storages[i].owner.None?
    ensures trace <= trace' && IsTrace(trace', Buyer(b), Nobody())
    ensures var s := trace[|trace| - 1];
            var x := s.buyers[b];
            var q := Purchase(s.storages[i].stock, x.demand, s.limit);
            trace'[|trace'| - 1]
            == Put(s, b, BuyerState(Look(i + 1), x.demand - q, x.purchases + if q > 0 then 1 else 0),
                   i, s.storages[i].(stock := s.storages[i].stock - q))
  {
    var s := trace[|trace| - 1];
    var x, st := s.buyers[b], s.storages[i];
    assert s == Put(s, b, x, i, st);
    trace' := SoloVisitStep(trace, s, b, x, i, st);
    if st.stock > 0 {
      var x1, st1 := x.(pc := Inside(i)), st.(owner := Some(Buyer(b)));
      trace' := SoloVisitStep(trace', s, b, x.(pc := TryLock(i)), i, st);
      HalvesMakeOnePurchase(s.limit, b, i, x1, st1);
      trace' := SoloVisitStep(trace', s, b, x1, i, st1);
      var (x2, st2) := Decide(s.limit, i, x1, st1);
      if !x2.pc.Leaving? {
        trace' := SoloVisitStep(trace', s, b, x2, i, st2);
        var second := VisitStep(s.limit, b, i, x2, st2);
        x2, st2 := second.0, second.1;
      }
      trace' := SoloVisitStep(trace', s, b, x2, i, st2);
    }
  }

  /** A pass in which nobody interferes and no storage is locked takes all it can: the demand falls by what the
      storages offer within the limit, down to zero. */
  lemma {:induction false} SoloPass(s: State, b: nat, n: nat) returns (trace: seq<State>)
    requires b < |s.buyers| && s.buyers[b].pc == Look(0) && 0 <= s.buyers[b].demand && n <= |s.storages|
    requires forall i | 0 <= i < |s.storages| :: s.storages[i].owner.None?
    ensures IsTrace(trace, Buyer(b), Nobody()) && trace[0] == s
    ensures var s' := trace[|trace| - 1];
            && |s'.buyers| == |s.buyers| && |s'.storages| == |s.storages| && s'.limit == s.limit
            && s'.buyers[b].pc == Look(n)
            && s'.buyers[b].demand == Max(0, s.buyers[b].demand - Supply(s.storages, n, s.limit))
            && (forall i | 0 <= i < |s.storages| :: s'.storages[i].owner.None?)
            && (forall i | n <= i < |s.storages| :: s'.storages[i] == s.storages[i])
  {
    if n == 0 {
      trace := [s];
    } else {
      trace := SoloPass(s, b, n - 1);
      trace := SoloVisit(trace, b, n - 1);
    }
  }

  /** The shared arrays and mutexes, and where each thread stands. */
  class Hall {
    const limit: nat
    const delivery: nat
    const startAmount: nat
    const startDemand: nat
    var storages: seq<Storage>
    var buyers: seq<BuyerState>
    var providers: seq<ProviderPc>
    var deliveries: nat

    function View(): State
      reads this
    {
      State(limit, delivery, storages, buyers, providers, deliveries)
    }

    ghost predicate Ok()
      reads this
    {
      Reachable(View(), startAmount, startDemand)
    }

    /** The initialisation in main: all mutexes open, nobody has started. */
    constructor (storages: nat, buyers: nat, providers: nat,
                 startAmount: nat, startDemand: nat, limit: nat, delivery: nat)
      ensures Init(View(), startAmount, startDemand) && Ok()
      ensures this.startAmount == startAmount && this.startDemand == startDemand
      ensures this.limit == limit && this.delivery == delivery
      ensures |this.storages| == storages && |this.buyers| == buyers && |this.providers| == providers
    {
      this.startAmount, this.startDemand, this.limit, this.delivery := startAmount, startDemand, limit, delivery;
      this.storages := seq(storages, _ => Storage(startAmount, None));
      this.buyers := seq(buyers, _ => BuyerState(Test, startDemand, 0));
      this.providers := seq(providers, _ => Seek(0));
      deliveries := 0;
      new;
      InitReachable(View(), startAmount, startDemand);
    }

    method OthersRun(t: Thread, schedule: seq<Thread>)
      requires Ok()
      modifies this
      ensures View() == OthersAct(old(View()), t, schedule)
      ensures Ok() && Kept(old(View()), t, View())
    {
      OthersActKeeps(View(), t, schedule, startAmount, startDemand);
      MoveTo(OthersAct(View(), t, schedule));
    }

    method MoveTo(v: State)
      requires v.limit == limit && v.delivery == delivery
      modifies this
      ensures View() == v
    {
      storages, buyers, providers, deliveries := v.storages, v.buyers, v.providers, v.deliveries;
    }

    method GoTo(b: nat, pc: BuyerPc)
      requires b < |buyers|
      modifies this`buyers
      ensures buyers == old(buyers)[b := old(buyers[b]).(pc := pc)]
    {
      buyers := buyers[b := buyers[b].(pc := pc)];
    }

    /** The trace ends here. */
    ghost predicate At(trace: seq<State>, t: Thread, schedule: nat -> seq<Thread>)
      reads this
    {
      IsTrace(trace, t, schedule) && trace[|trace| - 1] == View()
    }

    /** remains[i] > 0, without the lock */
    method LookAt(b: nat, i: nat) returns (stocked: bool)
      requires Ok() && b < |buyers| && i < |storages| && buyers[b].pc == Look(i)
      modifies this`buyers
      ensures Ok() && View() == BuyerStep(old(View()), b)
      ensures stocked <==> storages[i].stock > 0
      ensures buyers == old(buyers)[b := old(buyers[b]).(pc := if stocked then TryLock(i) else Look(i + 1))]
    {
      StepReachable(View(), Buyer(b), startAmount, startDemand);
      assert storages[i := storages[i]] == storages;
      stocked := storages[i].stock > 0;
      GoTo(b, if stocked then TryLock(i) else Look(i + 1));
    }

    /** pthread_mutex_trylock(&storage_mut[i]) == 0 */
    method TryTake(b: nat, i: nat) returns (entered: bool)
      requires Ok() && b < |buyers| && i < |storages| && buyers[b].pc == TryLock(i)
      modifies this`buyers, this`storages
      ensures Ok() && View() == BuyerStep(old(View()), b) && |storages| == old(|storages|)
      ensures entered <==> old(storages)[i].owner.None?
      ensures storages[i].stock == old(storages)[i].stock
      ensures buyers == old(buyers)[b := old(buyers[b]).(pc := if entered then Inside(i) else Look(i + 1))]
    {
      StepReachable(View(), Buyer(b), startAmount, startDemand);
      assert storages[i := storages[i]] == storages;
      entered := storages[i].owner.None?;
      if entered {
        storages := storages[i := storages[i].(owner := Some(Buyer(b)))];
      }
      GoTo(b, if entered then Inside(i) else Look(i + 1));
    }

    /** The tests of buy and the first assignment of the branch taken. */
    method FirstHalf(b: nat, i: nat)
      requires Ok() && b < |buyers| && i < |storages| && buyers[b].pc == Inside(i)
      modifies this`buyers, this`storages
      ensures Ok() && View() == BuyerStep(old(View()), b)
      ensures |buyers| == old(|buyers|) && |storages| == old(|storages|)
      ensures (buyers[b], storages[i]) == Decide(limit, i, old(buyers[b]), old(storages[i]))
    {
      StepReachable(View(), Buyer(b), startAmount, startDemand);
      var (x, st) := Decide(limit, i, buyers[b], storages[i]);
      buyers, storages := buyers[b := x], storages[i := st];
    }

    /** The second assignment. */
    method SecondHalf(b: nat, i: nat)
      requires Ok() && b < |buyers| && i < |storages| && BetweenHalves(buyers[b].pc, i)
      modifies this`buyers, this`storages
      ensures Ok() && View() == BuyerStep(old(View()), b)
      ensures |buyers| == old(|buyers|) && |storages| == old(|storages|)
      ensures (buyers[b], storages[i]) == VisitStep(limit, b, i, old(buyers[b]), old(storages[i]))
    {
      StepReachable(View(), Buyer(b), startAmount, startDemand);
      var (x, st) := VisitStep(limit, b, i, buyers[b], storages[i]);
      buyers, storages := buyers[b := x], storages[i := st];
    }

    /** The others run, then comes the first half of buy. */
    method StepFirstHalf(b: nat, i: nat, ghost trace: seq<State>, n: nat, schedule: nat -> seq<Thread>)
      returns (ghost trace': seq<State>)
      requires Ok() && b < |buyers| && i < |storages| && buyers[b].pc == Inside(i)
      requires At(trace, Buyer(b), schedule) && |trace| == n + 1
      modifies this
      ensures Ok() && |buyers| == old(|buyers|) && |storages| == old(|storages|)
      ensures trace' == trace + [View()] && At(trace', Buyer(b), schedule)
      ensures (buyers[b], storages[i]) == Decide(limit, i, old(buyers[b]), old(storages[i]))
    {
      OthersRun(Buyer(b), schedule(n));
      TraceGrows(trace, Buyer(b), schedule);
      FirstHalf(b, i);
      trace' := trace + [View()];
    }

    method StepSecondHalf(b: nat, i: nat, ghost trace: seq<State>, n: nat, schedule: nat -> seq<Thread>)
      returns (ghost trace': seq<State>)
      requires Ok() && b < |buyers| && i < |storages| && BetweenHalves(buyers[b].pc, i)
      requires At(trace, Buyer(b), schedule) && |trace| == n + 1
      modifies this
      ensures Ok() && |buyers| == old(|buyers|) && |storages| == old(|storages|)
      ensures trace' == trace + [View()] && At(trace', Buyer(b), schedule)
      ensures (buyers[b], storages[i]) == VisitStep(limit, b, i, old(buyers[b]), old(storages[i]))
    {
      OthersRun(Buyer(b), schedule(n));
      TraceGrows(trace, Buyer(b), schedule);
      SecondHalf(b, i);
      trace' := trace + [View()];
    }

    /** buy, in one step or two, with others running before each. */
    method BuyInside(b: nat, i: nat, ghost trace: seq<State>, n: nat, schedule: nat -> seq<Thread>)
      returns (ghost trace': seq<State>, n': nat)
      requires Ok() && b < |buyers| && i < |storages| && buyers[b].pc == Inside(i)
      requires At(trace, Buyer(b), schedule) && |trace| == n + 1
      modifies this
      ensures Ok() && |buyers| == old(|buyers|) && |storages| == old(|storages|)
      ensures trace < trace' && At(trace', Buyer(b), schedule) && |trace'| == n' + 1
      ensures var q := Purchase(old(storages[i].stock), old(buyers[b].demand), limit);
              && storages[i] == old(storages[i]).(stock := old(storages[i].stock) - q)
              && buyers[b] == BuyerState(Leaving(i), old(buyers[b].demand) - q,
                                         old(buyers[b].purchases) + if q > 0 then 1 else 0)
    {
      ReachableInv(View(), startAmount, startDemand);
      assert BuyerOk(View(), b, startDemand);
      HalvesMakeOnePurchase(limit, b, i, buyers[b], storages[i]);
      trace' := StepFirstHalf(b, i, trace, n, schedule);
      n' := n + 1;
      if !buyers[b].pc.Leaving? {
        trace' := StepSecondHalf(b, i, trace', n + 1, schedule);
        n' := n + 2;
      }
    }

    /** pthread_mutex_unlock */
    method Leave(b: nat, i: nat)
      requires Ok() && b < |buyers| && i < |storages| && buyers[b].pc == Leaving(i)
      modifies this`storages, this`buyers
      ensures Ok() && View() == BuyerStep(old(View()), b)
      ensures |buyers| == old(|buyers|) && |storages| == old(|storages|)
      ensures buyers[b] == old(buyers[b]).(pc := Look(i + 1))
    {
      StepReachable(View(), Buyer(b), startAmount, startDemand);
      storages := storages[i := storages[i].(owner := None)];
      GoTo(b, Look(i + 1));
    }

    method BuyAndLeave(b: nat, i: nat, ghost trace: seq<State>, n: nat, schedule: nat -> seq<Thread>)
      returns (ghost trace': seq<State>, n': nat)
      requires Ok() && b < |buyers| && i < |storages| && buyers[b].pc == Inside(i)
      requires At(trace, Buyer(b), schedule) && |trace| == n + 1
      modifies this
      ensures Ok() && |buyers| == old(|buyers|) && |storages| == old(|storages|)
      ensures trace < trace' && At(trace', Buyer(b), schedule) && |trace'| == n' + 1
      ensures var q := Purchase(old(storages[i].stock), old(buyers[b].demand), limit);
              && 0 <= q <= limit
              && buyers[b] == BuyerState(Look(i + 1), old(buyers[b].demand) - q,
                                         old(buyers[b].purchases) + if q > 0 then 1 else 0)
    {
      ReachableInv(View(), startAmount, startDemand);
      assert BuyerOk(View(), b, startDemand);
      trace', n' := BuyInside(b, i, trace, n, schedule);
      trace' := StepLeave(b, i, trace', n', schedule);
      n' := n' + 1;
    }

    method StepLeave(b: nat, i: nat, ghost trace: seq<State>, n: nat, schedule: nat -> seq<Thread>)
      returns (ghost trace': seq<State>)
      requires Ok() && b < |buyers| && i < |storages| && buyers[b].pc == Leaving(i)
      requires At(trace, Buyer(b), schedule) && |trace| == n + 1
      modifies this
      ensures Ok() && |buyers| == old(|buyers|) && |storages| == old(|storages|)
      ensures trace' == trace + [View()] && At(trace', Buyer(b), schedule)
      ensures buyers[b] == old(buyers[b]).(pc := Look(i + 1))
    {
      OthersRun(Buyer(b), schedule(n));
      TraceGrows(trace, Buyer(b), schedule);
      Leave(b, i);
      trace' := trace + [View()];
    }

    method StepLook(b: nat, i: nat, ghost trace: seq<State>, n: nat, schedule: nat -> seq<Thread>)
      returns (stocked: bool, ghost trace': seq<State>)
      requires Ok() && b < |buyers| && i < |storages| && buyers[b].pc == Look(i)
      requires At(trace, Buyer(b), schedule) && |trace| == n + 1
      modifies this
      ensures Ok() && |buyers| == old(|buyers|) && |storages| == old(|storages|)
      ensures trace' == trace + [View()] && At(trace', Buyer(b), schedule)
      ensures var looked := Before(trace, Buyer(b), n, schedule);
              && |looked.storages| == |storages| && |looked.buyers| == |buyers|
              && (stocked <==> looked.storages[i].stock > 0)
              && looked.buyers[b] == old(buyers[b]) && looked.limit == limit
      ensures buyers[b] == old(buyers[b]).(pc := if stocked then TryLock(i) else Look(i + 1))
    {
      OthersRun(Buyer(b), schedule(n));
      TraceGrows(trace, Buyer(b), schedule);
      stocked := LookAt(b, i);
      trace' := trace + [View()];
    }

    method StepTake(b: nat, i: nat, ghost trace: seq<State>, n: nat, schedule: nat -> seq<Thread>)
      returns (entered: bool, ghost trace': seq<State>)
      requires Ok() && b < |buyers| && i < |storages| && buyers[b].pc == TryLock(i)
      requires At(trace, Buyer(b), schedule) && |trace| == n + 1
      modifies this
      ensures Ok() && |buyers| == old(|buyers|) && |storages| == old(|storages|)
      ensures trace' == trace + [View()] && At(trace', Buyer(b), schedule)
      ensures var tried := Before(trace, Buyer(b), n, schedule);
              && |tried.storages| == |storages|
              && (entered <==> tried.storages[i].owner.None?)
              && tried.storages[i].stock == storages[i].stock
      ensures buyers[b] == old(buyers[b]).(pc := if entered then Inside(i) else Look(i + 1))
    {
      OthersRun(Buyer(b), schedule(n));
      TraceGrows(trace, Buyer(b), schedule);
      entered := TryTake(b, i);
      trace' := trace + [View()];
    }

    /** remains[storage_index] > 0 && trylock, the others running before each. */
    method LookAndTake(b: nat, i: nat, ghost trace: seq<State>, n: nat, schedule: nat -> seq<Thread>)
      returns (entered: bool, ghost trace': seq<State>, n': nat)
      requires Ok() && b < |buyers| && i < |storages| && buyers[b].pc == Look(i)
      requires At(trace, Buyer(b), schedule) && |trace| == n + 1
      modifies this
      ensures Ok() && |buyers| == old(|buyers|) && |storages| == old(|storages|)
      ensures trace < trace' && At(trace', Buyer(b), schedule) && |trace'| == n' + 1
      ensures buyers[b] == old(buyers[b]).(pc := if entered then Inside(i) else Look(i + 1))
      ensures VisitAmount(trace', b, n, i, schedule)
              == if entered then Purchase(storages[i].stock, buyers[b].demand, limit) else 0
    {
      entered, trace' := StepLook(b, i, trace, n, schedule);
      n' := n + 1;
      if entered {
        entered, trace' := StepTake(b, i, trace', n + 1, schedule);
        n' := n + 2;
      }
    }

    /** One turn of the for loop of buyer_logic: it takes exactly what the stock it saw and the lock it found
        allow, at most the limit. */
    method Visit(b: nat, i: nat, ghost trace: seq<State>, n: nat, schedule: nat -> seq<Thread>)
      returns (ghost trace': seq<State>, n': nat)
      requires Ok() && b < |buyers| && i < |storages| && buyers[b].pc == Look(i)
      requires At(trace, Buyer(b), schedule) && |trace| == n + 1
      modifies this
      ensures Ok() && |buyers| == old(|buyers|) && |storages| == old(|storages|)
      ensures trace < trace' && At(trace', Buyer(b), schedule) && |trace'| == n' + 1
      ensures var q := VisitAmount(trace', b, n, i, schedule);
              && 0 <= q <= limit
              && buyers[b] == BuyerState(Look(i + 1), old(buyers[b].demand) - q,
                                         old(buyers[b].purchases) + if q > 0 then 1 else 0)
    {
      var entered;
      entered, trace', n' := LookAndTake(b, i, trace, n, schedule);
      if entered {
        trace', n' := BuyAndLeave(b, i, trace', n', schedule);
      }
    }

    /** The visit that follows those in begins. */
    method NextVisit(b: nat, i: nat, ghost trace: seq<State>, ghost first: nat, n: nat, ghost begins: seq<nat>,
                     schedule: nat -> seq<Thread>)
      returns (ghost trace': seq<State>, n': nat, ghost begins': seq<nat>, ghost q: nat)
      requires Ok() && b < |buyers| && i < |storages| && buyers[b].pc == Look(i)
      requires At(trace, Buyer(b), schedule) && |trace| == n + 1 && first <= n && (i == 0 ==> first == n)
      requires |begins| == i && AreVisits(trace, b, first, begins)
      modifies this
      ensures Ok() && |buyers| == old(|buyers|) && |storages| == old(|storages|)
      ensures trace < trace' && At(trace', Buyer(b), schedule) && |trace'| == n' + 1
      ensures begins' == begins + [n] && AreVisits(trace', b, first, begins')
      ensures q <= limit
      ensures PassAmount(trace', b, begins', schedule) == PassAmount(trace, b, begins, schedule) + q
      ensures PassPurchases(trace', b, begins', schedule)
              == PassPurchases(trace, b, begins, schedule) + if q > 0 then 1 else 0
      ensures buyers[b] == BuyerState(Look(i + 1), old(buyers[b].demand) - q,
                                      old(buyers[b].purchases) + if q > 0 then 1 else 0)
    {
      trace', n' := Visit(b, i, trace, n, schedule);
      q := VisitAmount(trace', b, n, i, schedule);
      PassGrows(trace, trace', b, first, begins, n, schedule);
      begins' := begins + [n];
    }

    /** The for loop of buyer_logic, the other threads running as scheduled before each of its steps: its visits
        take exactly what they find, each at most the limit in at most one purchase. */
    method BuyerPass(b: nat, ghost trace: seq<State>, n: nat, schedule: nat -> seq<Thread>)
      returns (ghost trace': seq<State>, n': nat, ghost begins: seq<nat>)
      requires Ok() && b < |buyers| && buyers[b].pc == Look(0)
      requires At(trace, Buyer(b), schedule) && |trace| == n + 1
      modifies this
      ensures Ok() && |buyers| == old(|buyers|) && |storages| == old(|storages|)
      ensures trace <= trace' && At(trace', Buyer(b), schedule) && |trace'| == n' + 1
      ensures |begins| == |storages| && AreVisits(trace', b, n, begins)
      ensures buyers[b] == BuyerState(Look(|storages|),
                                      old(buyers[b].demand) - PassAmount(trace', b, begins, schedule),
                                      old(buyers[b].purchases) + PassPurchases(trace', b, begins, schedule))
      ensures old(buyers[b].demand) - limit * |storages| <= buyers[b].demand <= old(buyers[b].demand)
      ensures old(buyers[b].purchases) <= buyers[b].purchases <= old(buyers[b].purchases) + |storages|
      ensures buyers[b].purchases > old(buyers[b].purchases) <==> buyers[b].demand < old(buyers[b].demand)
    {
      trace', n', begins := trace, n, [];
      ghost var amount: nat, count: nat := 0, 0;
      var i := 0;
      while i < |storages|
        invariant Ok() && |buyers| == old(|buyers|) && |storages| == old(|storages|)
        invariant 0 <= i <= |storages| && n <= n' && (i == 0 ==> n' == n)
        invariant trace <= trace' && At(trace', Buyer(b), schedule) && |trace'| == n' + 1
        invariant |begins| == i && AreVisits(trace', b, n, begins)
        invariant amount == PassAmount(trace', b, begins, schedule) <= limit * i
        invariant count == PassPurchases(trace', b, begins, schedule) <= i
        invariant amount > 0 <==> count > 0
        invariant buyers[b] == BuyerState(Look(i), old(buyers[b].demand) - amount, old(buyers[b].purchases) + count)
        decreases |storages| - i
      {
        ghost var q;
        trace', n', begins, q := NextVisit(b, i, trace', n, n', begins, schedule);
        amount, count := AddVisit(limit, i, amount, count, q);
        i := i + 1;
      }
    }

    /** while (demands[*myIndex] > 0) */
    method TestDemand(b: nat) returns (goOn: bool)
      requires Ok() && b < |buyers| && buyers[b].pc == Test
      modifies this`buyers
      ensures buyers == old(buyers)[b := old(buyers[b]).(pc := if goOn then Look(0) else Done)]
      ensures Ok() && View() == BuyerStep(old(View()), b) && (goOn <==> buyers[b].demand > 0)
    {
      StepReachable(View(), Buyer(b), startAmount, startDemand);
      goOn := buyers[b].demand > 0;
      GoTo(b, if goOn then Look(0) else Done);
    }

    /** The end of the for loop, or the end of the sleep. */
    method FallAsleepOrWake(b: nat)
      requires Ok() && b < |buyers| && (buyers[b].pc == Look(|storages|) || buyers[b].pc == Asleep)
      modifies this`buyers
      ensures buyers == old(buyers)[b := old(buyers[b]).(pc := if old(buyers[b].pc).Look? then Asleep else Test)]
      ensures Ok() && View() == BuyerStep(old(View()), b)
    {
      StepReachable(View(), Buyer(b), startAmount, startDemand);
      GoTo(b, if buyers[b].pc.Look? then Asleep else Test);
    }

    method StepSleep(b: nat, ghost trace: seq<State>, n: nat, schedule: nat -> seq<Thread>)
      returns (ghost trace': seq<State>)
      requires Ok() && b < |buyers| && (buyers[b].pc == Look(|storages|) || buyers[b].pc == Asleep)
      requires At(trace, Buyer(b), schedule) && |trace| == n + 1
      modifies this
      ensures Ok() && |buyers| == old(|buyers|) && |storages| == old(|storages|)
      ensures trace' == trace + [View()] && At(trace', Buyer(b), schedule)
      ensures buyers[b] == old(buyers[b]).(pc := if old(buyers[b].pc).Look? then Asleep else Test)
    {
      OthersRun(Buyer(b), schedule(n));
      TraceGrows(trace, Buyer(b), schedule);
      FallAsleepOrWake(b);
      trace' := trace + [View()];
    }

    method StepTest(b: nat, ghost trace: seq<State>, n: nat, schedule: nat -> seq<Thread>)
      returns (goOn: bool, ghost trace': seq<State>)
      requires Ok() && b < |buyers| && buyers[b].pc == Test
      requires At(trace, Buyer(b), schedule) && |trace| == n + 1
      modifies this
      ensures Ok() && |buyers| == old(|buyers|) && |storages| == old(|storages|)
      ensures trace' == trace + [View()] && At(trace', Buyer(b), schedule)
      ensures buyers[b] == old(buyers[b]).(pc := if goOn then Look(0) else Done)
      ensures goOn <==> buyers[b].demand > 0
    {
      OthersRun(Buyer(b), schedule(n));
      TraceGrows(trace, Buyer(b), schedule);
      goOn := TestDemand(b);
      trace' := trace + [View()];
    }

    /** A pass, the sleep after it, and the next test. */
    method BuyerTurn(b: nat, ghost trace: seq<State>, n: nat, schedule: nat -> seq<Thread>)
      returns (goOn: bool, ghost trace': seq<State>, n': nat)
      requires Ok() && b < |buyers| && buyers[b].pc == Look(0)
      requires At(trace, Buyer(b), schedule) && |trace| == n + 1
      modifies this
      ensures Ok() && |buyers| == old(|buyers|) && |storages| == old(|storages|)
      ensures trace < trace' && At(trace', Buyer(b), schedule) && |trace'| == n' + 1
      ensures buyers[b].pc == if goOn then Look(0) else Done
      ensures goOn <==> buyers[b].demand > 0
      ensures buyers[b].demand <= old(buyers[b].demand)
    {
      ghost var begins;
      trace', n', begins := BuyerPass(b, trace, n, schedule);
      goOn, trace' := SleepAndTest(b, trace', n', schedule);
      n' := n' + 3;
    }

    /** sleep(BUYER_SLEEP), and the next test. */
    method SleepAndTest(b: nat, ghost trace: seq<State>, n: nat, schedule: nat -> seq<Thread>)
      returns (goOn: bool, ghost trace': seq<State>)
      requires Ok() && b < |buyers| && buyers[b].pc == Look(|storages|)
      requires At(trace, Buyer(b), schedule) && |trace| == n + 1
      modifies this
      ensures Ok() && |buyers| == old(|buyers|) && |storages| == old(|storages|)
      ensures trace < trace' && |trace'| == n + 4 && At(trace', Buyer(b), schedule)
      ensures buyers[b] == old(buyers[b]).(pc := if goOn then Look(0) else Done)
      ensures goOn <==> buyers[b].demand > 0
    {
      trace' := StepSleep(b, trace, n, schedule);
      trace' := StepSleep(b, trace', n + 1, schedule);
      goOn, trace' := StepTest(b, trace', n + 2, schedule);
    }

    /** The turn that follows those in begins. */
    method NextBuyerTurn(b: nat, ghost trace: seq<State>, n: nat, ghost begins: seq<nat>, schedule: nat -> seq<Thread>)
      returns (goOn: bool, ghost trace': seq<State>, n': nat, ghost begins': seq<nat>)
      requires Ok() && b < |buyers| && buyers[b].pc == Look(0)
      requires At(trace, Buyer(b), schedule) && |trace| == n + 1 && AreTurns(trace, Buyer(b), begins)
      modifies this
      ensures Ok() && |buyers| == old(|buyers|) && |storages| == old(|storages|)
      ensures trace < trace' && At(trace', Buyer(b), schedule) && |trace'| == n' + 1
      ensures |begins'| == |begins| + 1 && AreTurns(trace', Buyer(b), begins')
      ensures buyers[b].pc == if goOn then Look(0) else Done
      ensures goOn <==> buyers[b].demand > 0
      ensures buyers[b].demand <= old(buyers[b].demand)
    {
      goOn, trace', n' := BuyerTurn(b, trace, n, schedule);
      TurnsGrow(trace, trace', Buyer(b), begins);
      begins' := begins + [n];
    }

    /** buyer_logic, for at most patience turns of its loop. The trace lists the buyer's steps under the schedule, and
        begins those with which its turns begin. It is finished exactly when its demand is gone, and otherwise it has
        made patience turns. Once finished it has made at most startDemand and at least startDemand / limit
        purchases. */
    method BuyerLogic(b: nat, patience: nat, schedule: nat -> seq<Thread>)
      returns (finished: bool, ghost trace: seq<State>, ghost begins: seq<nat>)
      requires Ok() && b < |buyers| && buyers[b].pc == Test
      modifies this
      ensures Ok() && |buyers| == old(|buyers|) && |storages| == old(|storages|)
      ensures At(trace, Buyer(b), schedule) && trace[0] == old(View())
      ensures |begins| <= patience && (!finished ==> |begins| == patience)
      ensures AreTurns(trace, Buyer(b), begins)
      ensures buyers[b].pc == if finished then Done else Look(0)
      ensures finished <==> buyers[b].demand == 0
      ensures finished ==> buyers[b].purchases <= startDemand <= limit * buyers[b].purchases
      ensures 0 <= buyers[b].demand <= old(buyers[b].demand)
    {
      trace := [View()];
      var goOn;
      goOn, trace := StepTest(b, trace, 0, schedule);
      var n, turn := 1, 0;
      begins := [];
      while goOn && turn < patience
        invariant Ok() && |buyers| == old(|buyers|) && |storages| == old(|storages|)
        invariant 0 <= turn == |begins| <= patience && AreTurns(trace, Buyer(b), begins)
        invariant At(trace, Buyer(b), schedule) && |trace| == n + 1 && trace[0] == old(View())
        invariant buyers[b].pc == if goOn then Look(0) else Done
        invariant goOn <==> buyers[b].demand > 0
        invariant buyers[b].demand <= old(buyers[b].demand)
        decreases patience - turn
      {
        goOn, trace, n, begins := NextBuyerTurn(b, trace, n, begins, schedule);
        turn := turn + 1;
      }
      finished := !goOn;
      ReachableInv(View(), startAmount, startDemand);
      assert BuyerOk(View(), b, startDemand);
    }

    /** The provider's trylock. */
    method TryProvide(p: nat, i: nat) returns (entered: bool)
      requires Ok() && p < |providers| && i < |storages| && providers[p] == Seek(i)
      modifies this`storages, this`providers
      ensures Ok() && View() == ProviderStep(old(View()), p)
      ensures entered <==> old(storages)[i].owner.None?
      ensures |storages| == old(|storages|) && |providers| == old(|providers|)
      ensures providers[p] == if entered then Unload(i) else Seek(i + 1)
      ensures entered ==> storages[i] == old(storages[i]).(owner := Some(Provider(p)))
    {
      StepReachable(View(), Provider(p), startAmount, startDemand);
      assert storages[i := storages[i]] == storages;
      entered := storages[i].owner.None?;
      if entered {
        storages := storages[i := storages[i].(owner := Some(Provider(p)))];
      }
      providers := providers[p := if entered then Unload(i) else Seek(i + 1)];
    }

    /** provide, under the lock. */
    method Deliver(p: nat, i: nat)
      requires Ok() && p < |providers| && i < |storages| && providers[p] == Unload(i)
      modifies this`storages, this`providers, this`deliveries
      ensures Ok() && View() == ProviderStep(old(View()), p)
      ensures storages == old(storages)[i := old(storages[i]).(stock := old(storages[i].stock) + delivery)]
      ensures providers == old(providers)[p := Unlock(i)] && deliveries == old(deliveries) + 1
    {
      ghost var next := ProviderStep(View(), p);
      StepReachable(View(), Provider(p), startAmount, startDemand);
      assert next == View().(storages := storages[i := storages[i].(stock := storages[i].stock + delivery)],
                             providers := providers[p := Unlock(i)], deliveries := deliveries + 1);
      storages := storages[i := storages[i].(stock := storages[i].stock + delivery)];
      providers := providers[p := Unlock(i)];
      deliveries := deliveries + 1;
      assert View() == next;
    }

    /** The provider's unlock. */
    method LeaveProvided(p: nat, i: nat)
      requires Ok() && p < |providers| && i < |storages| && providers[p] == Unlock(i)
      modifies this`storages, this`providers
      ensures Ok() && View() == ProviderStep(old(View()), p)
      ensures storages == old(storages)[i := old(storages[i]).(owner := None)]
      ensures providers == old(providers)[p := Rest]
    {
      StepReachable(View(), Provider(p), startAmount, startDemand);
      storages := storages[i := storages[i].(owner := None)];
      providers := providers[p := Rest];
    }

    method StepDeliver(p: nat, i: nat, ghost trace: seq<State>, n: nat, schedule: nat -> seq<Thread>)
      returns (ghost trace': seq<State>)
      requires Ok() && p < |providers| && i < |storages| && providers[p] == Unload(i)
      requires At(trace, Provider(p), schedule) && |trace| == n + 1
      modifies this
      ensures Ok() && |providers| == old(|providers|) && |storages| == old(|storages|)
      ensures trace' == trace + [View()] && At(trace', Provider(p), schedule)
      ensures Unloads(trace', p) == Unloads(trace, p)
      ensures providers[p] == Unlock(i) && deliveries > old(deliveries)
      ensures storages[i] == old(storages[i]).(stock := old(storages[i].stock) + delivery)
    {
      OthersRun(Provider(p), schedule(n));
      TraceGrows(trace, Provider(p), schedule);
      Deliver(p, i);
      trace' := trace + [View()];
      UnloadsGrow(trace, View(), p);
    }

    method StepLeaveProvided(p: nat, i: nat, ghost trace: seq<State>, n: nat, schedule: nat -> seq<Thread>)
      returns (ghost trace': seq<State>)
      requires Ok() && p < |providers| && i < |storages| && providers[p] == Unlock(i)
      requires At(trace, Provider(p), schedule) && |trace| == n + 1
      modifies this
      ensures Ok() && |providers| == old(|providers|) && |storages| == old(|storages|)
      ensures trace' == trace + [View()] && At(trace', Provider(p), schedule)
      ensures Unloads(trace', p) == Unloads(trace, p)
      ensures providers[p] == Rest && deliveries >= old(deliveries)
      ensures storages[i] == old(storages[i]).(owner := None)
    {
      OthersRun(Provider(p), schedule(n));
      TraceGrows(trace, Provider(p), schedule);
      LeaveProvided(p, i);
      trace' := trace + [View()];
      UnloadsGrow(trace, View(), p);
    }

    /** From the lock to its release: whatever the others do, the storage grows by exactly one delivery. */
    method UnloadHere(p: nat, i: nat, ghost trace: seq<State>, n: nat, schedule: nat -> seq<Thread>)
      returns (ghost trace': seq<State>)
      requires Ok() && p < |providers| && i < |storages| && providers[p] == Unload(i)
      requires At(trace, Provider(p), schedule) && |trace| == n + 1
      modifies this
      ensures Ok() && |providers| == old(|providers|) && |storages| == old(|storages|)
      ensures trace < trace' && |trace'| == n + 3 && At(trace', Provider(p), schedule)
      ensures Unloads(trace', p) == Unloads(trace, p)
      ensures providers[p] == Rest && deliveries > old(deliveries)
      ensures storages[i] == Storage(old(storages[i].stock) + delivery, None)
    {
      trace' := StepDeliver(p, i, trace, n, schedule);
      trace' := StepLeaveProvided(p, i, trace', n + 1, schedule);
    }

    /** The others run, and then the provider tries storage i. */
    method StepTry(p: nat, i: nat, ghost trace: seq<State>, ghost first: nat, n: nat, schedule: nat -> seq<Thread>)
      returns (entered: bool, ghost trace': seq<State>)
      requires Ok() && p < |providers| && i < |storages| && providers[p] == Seek(i)
      requires At(trace, Provider(p), schedule) && |trace| == n + 1 && n == first + i
      modifies this
      ensures Ok() && |storages| == old(|storages|) && |providers| == old(|providers|)
      ensures trace' == trace + [View()] && At(trace', Provider(p), schedule)
      ensures Unloads(trace', p) == Unloads(trace, p) + if entered then 1 else 0
      ensures if entered then FindsFree(trace', p, first, i, storages[i].stock, schedule)
              else FindsLocked(trace', p, first, i, schedule)
      ensures old(deliveries) <= deliveries
      ensures providers[p] == if entered then Unload(i) else Seek(i + 1)
    {
      OthersRun(Provider(p), schedule(n));
      TraceGrows(trace, Provider(p), schedule);
      entered := TryProvide(p, i);
      trace' := trace + [View()];
      UnloadsGrow(trace, View(), p);
    }

    /** The try that follows failed ones at all storages before i. */
    method TryNext(p: nat, i: nat, ghost trace: seq<State>, ghost first: nat, n: nat, schedule: nat -> seq<Thread>)
      returns (entered: bool, ghost trace': seq<State>)
      requires Ok() && p < |providers| && i < |storages| && providers[p] == Seek(i)
      requires At(trace, Provider(p), schedule) && |trace| == n + 1 && n == first + i
      requires AllLocked(trace, p, first, i, schedule)
      modifies this
      ensures Ok() && |storages| == old(|storages|) && |providers| == old(|providers|)
      ensures trace < trace' && |trace'| == n + 2 && At(trace', Provider(p), schedule)
      ensures Unloads(trace', p) == Unloads(trace, p) + if entered then 1 else 0
      ensures AllLocked(trace', p, first, if entered then i else i + 1, schedule)
      ensures entered ==> FindsFree(trace', p, first, i, storages[i].stock, schedule)
      ensures old(deliveries) <= deliveries
      ensures providers[p] == if entered then Unload(i) else Seek(i + 1)
    {
      entered, trace' := StepTry(p, i, trace, first, n, schedule);
      LockedIsPast(trace, trace', p, first, i, schedule);
      if !entered {
        OneMoreLocked(trace', p, first, i, schedule);
      }
    }

    /** The for loop of provider_logic, up to the storage it finds free, if any. Its step number n + j tries
        storage j. */
    method SeekStorage(p: nat, ghost trace: seq<State>, n: nat, schedule: nat -> seq<Thread>)
      returns (at: nat, ghost trace': seq<State>)
      requires Ok() && p < |providers| && providers[p] == Seek(0)
      requires At(trace, Provider(p), schedule) && |trace| == n + 1
      modifies this
      ensures Ok() && |providers| == old(|providers|) && |storages| == old(|storages|)
      ensures at <= |storages| && trace <= trace' && At(trace', Provider(p), schedule)
      ensures |trace'| == n + 1 + if at < |storages| then at + 1 else at
      ensures AllLocked(trace', p, n, at, schedule)
      ensures at < |storages| ==> FindsFree(trace', p, n, at, storages[at].stock, schedule)
      ensures providers[p] == if at < |storages| then Unload(at) else Seek(at)
      ensures Unloads(trace', p) == Unloads(trace, p) + if at < |storages| then 1 else 0
      ensures old(deliveries) <= deliveries
    {
      at, trace' := 0, trace;
      while at < |storages|
        invariant Ok() && |providers| == old(|providers|) && |storages| == old(|storages|)
        invariant old(deliveries) <= deliveries
        invariant 0 <= at <= |storages| && providers[p] == Seek(at)
        invariant trace <= trace' && At(trace', Provider(p), schedule) && |trace'| == n + 1 + at
        invariant Unloads(trace', p) == Unloads(trace, p)
        invariant AllLocked(trace', p, n, at, schedule)
        decreases |storages| - at
      {
        var entered;
        entered, trace' := TryNext(p, at, trace', n, n + at, schedule);
        if entered { return; }
        at := at + 1;
      }
    }

    /** provider_logic's for loop. It unloads once, at the first storage it finds free, or nowhere, and then at is
        the number of storages. Whatever the others do from the trylock to the unlock, the storage grows by exactly
        one delivery. */
    method ProviderPass(p: nat, ghost trace: seq<State>, n: nat, schedule: nat -> seq<Thread>)
      returns (at: nat, ghost trace': seq<State>, n': nat)
      requires Ok() && p < |providers| && providers[p] == Seek(0)
      requires At(trace, Provider(p), schedule) && |trace| == n + 1
      modifies this
      ensures Ok() && |providers| == old(|providers|) && |storages| == old(|storages|)
      ensures at <= |storages| && trace <= trace' && At(trace', Provider(p), schedule)
      ensures |trace'| == n' + 1 && n' == n + if at < |storages| then at + 3 else at
      ensures AllLocked(trace', p, n, at, schedule)
      ensures at < |storages| ==>
                && storages[at].owner.None?
                && FindsFree(trace', p, n, at, storages[at].stock - delivery, schedule)
      ensures providers[p] == if at < |storages| then Rest else Seek(at)
      ensures Unloads(trace', p) == Unloads(trace, p) + if at < |storages| then 1 else 0
      ensures old(deliveries) + (if at < |storages| then 1 else 0) <= deliveries
    {
      at, trace' := SeekStorage(p, trace, n, schedule);
      n' := n + at;
      if at < |storages| {
        ghost var locked := trace';
        trace' := UnloadHere(p, at, trace', n + at + 1, schedule);
        n' := n + at + 3;
        LockedIsPast(locked, trace', p, n, at, schedule);
      }
    }

    /** sleep, or continue, and the next pass. */
    method ProviderAgain(p: nat)
      requires Ok() && p < |providers| && (providers[p] == Rest || providers[p] == Seek(|storages|))
      modifies this`providers
      ensures Ok() && View() == ProviderStep(old(View()), p) && providers == old(providers)[p := Seek(0)]
    {
      StepReachable(View(), Provider(p), startAmount, startDemand);
      providers := providers[p := Seek(0)];
    }

    method StepAgain(p: nat, ghost trace: seq<State>, n: nat, schedule: nat -> seq<Thread>)
      returns (ghost trace': seq<State>)
      requires Ok() && p < |providers| && (providers[p] == Rest || providers[p] == Seek(|storages|))
      requires At(trace, Provider(p), schedule) && |trace| == n + 1
      modifies this
      ensures Ok() && |providers| == old(|providers|) && |storages| == old(|storages|)
      ensures trace' == trace + [View()] && At(trace', Provider(p), schedule)
      ensures Unloads(trace', p) == Unloads(trace, p)
      ensures providers[p] == Seek(0) && deliveries >= old(deliveries)
    {
      OthersRun(Provider(p), schedule(n));
      TraceGrows(trace, Provider(p), schedule);
      ProviderAgain(p);
      trace' := trace + [View()];
      UnloadsGrow(trace, View(), p);
    }

    /** A pass, and what follows it. */
    method ProviderTurn(p: nat, ghost trace: seq<State>, n: nat, schedule: nat -> seq<Thread>)
      returns (isProvided: bool, ghost trace': seq<State>, n': nat)
      requires Ok() && p < |providers| && providers[p] == Seek(0)
      requires At(trace, Provider(p), schedule) && |trace| == n + 1
      modifies this
      ensures Ok() && |providers| == old(|providers|) && |storages| == old(|storages|)
      ensures trace < trace' && At(trace', Provider(p), schedule) && |trace'| == n' + 1
      ensures Unloads(trace', p) == Unloads(trace, p) + if isProvided then 1 else 0
      ensures providers[p] == Seek(0)
      ensures old(deliveries) + (if isProvided then 1 else 0) <= deliveries
    {
      var at;
      at, trace', n' := ProviderPass(p, trace, n, schedule);
      isProvided := at < |storages|;
      trace' := StepAgain(p, trace', n', schedule);
      n' := n' + 1;
    }

    /** provider_logic, for a number of turns of its endless loop. The trace lists the provider's steps under the
        schedule, begins those with which its turns begin, and unloaded is how often it has unloaded; there are at
        least as many deliveries. */
    method ProviderLogic(p: nat, turns: nat, schedule: nat -> seq<Thread>)
      returns (unloaded: nat, ghost trace: seq<State>, ghost begins: seq<nat>)
      requires Ok() && p < |providers| && providers[p] == Seek(0)
      modifies this
      ensures Ok() && |providers| == old(|providers|) && |storages| == old(|storages|)
      ensures At(trace, Provider(p), schedule) && trace[0] == old(View())
      ensures |begins| == turns && AreTurns(trace, Provider(p), begins)
      ensures providers[p] == Seek(0)
      ensures unloaded == Unloads(trace, p) <= turns
      ensures old(deliveries) + unloaded <= deliveries
    {
      trace, begins, unloaded := [View()], [], 0;
      var n := 0;
      for turn := 0 to turns
        invariant Ok() && |providers| == old(|providers|) && |storages| == old(|storages|)
        invariant At(trace, Provider(p), schedule) && |trace| == n + 1 && trace[0] == old(View())
        invariant |begins| == turn && AreTurns(trace, Provider(p), begins)
        invariant providers[p] == Seek(0)
        invariant unloaded == Unloads(trace, p) <= turn
        invariant old(deliveries) + unloaded <= deliveries
      {
        ghost var before := trace;
        var isProvided;
        isProvided, trace, n := ProviderTurn(p, trace, n, schedule);
        TurnsGrow(before, trace, Provider(p), begins);
        begins := begins + [|before| - 1];
        if isProvided {
          unloaded := unloaded + 1;
        }
      }
    }
  }
}
