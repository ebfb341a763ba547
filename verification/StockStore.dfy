/** The in-memory activity store: stock per product, units bought per user and product,
    and the cleanups that find their entries by looking into the key strings. */
module StockStore {
  import opened Prelude
  import opened KeyStrings

  datatype Sku = Sku(activityNo: string, skuNo: string, totalStock: int)

  datatype Activity = Activity(activityNo: string, skus: seq<Sku>)

  type Counts = map<string, int>

  /** A missing entry reads as zero. */
  function Count(m: Counts, k: string): int {
    if k in m then m[k] else 0
  }

  // ---------------------------------------------------------------------------
  // Ledger steps
  // ---------------------------------------------------------------------------

  datatype Ledger = Ledger(stock: Counts, purchases: Counts)

  /** Operations on one product, named by its stock key. */
  datatype Op =
    | Add(key: string, total: int)
    | Deduct(key: string, user: int, quantity: int, limit: int)
    | Release(key: string, user: int, quantity: int)

  datatype Reply = Fine | NotReady | Refused | Granted

  function Step(l: Ledger, op: Op): (Ledger, Reply) {
    match op
    case Add(k, total) =>
      (if k in l.stock then l else l.(stock := l.stock[k := total]), Fine)
    case Deduct(k, u, q, limit) =>
      var p := PurchaseKey(u, k);
      if k !in l.stock then (l, NotReady)
      else if limit > 0 && Count(l.purchases, p) + q > limit then (l, Refused)
      else if l.stock[k] < q then (l, Refused)
      else
        (Ledger(l.stock[k := l.stock[k] - q],
                if limit > 0 then l.purchases[p := Count(l.purchases, p) + q] else l.purchases), Granted)
    case Release(k, u, q) =>
      var p := PurchaseKey(u, k);
      (Ledger(l.stock[k := Count(l.stock, k) + q],
              if Count(l.purchases, p) <= q then l.purchases - {p}
              else l.purchases[p := Count(l.purchases, p) - q]), Fine)
  }

  const EMPTY := Ledger(map[], map[])

  function Final(run: seq<Op>): Ledger {
    if run == [] then EMPTY else Step(Final(Most(run)), Last(run)).0
  }

  function Most(run: seq<Op>): seq<Op>
    requires run != []
  {
    run[..|run| - 1]
  }

  function Last(run: seq<Op>): Op
    requires run != []
  {
    run[|run| - 1]
  }

  predicate GrantedLast(run: seq<Op>)
    requires run != []
  {
    Step(Final(Most(run)), Last(run)).1.Granted?
  }

  // ---------------------------------------------------------------------------
  // Stock is conserved
  // ---------------------------------------------------------------------------

  /** Units granted from a product in a run, and released to it. */
  function UnitsGranted(run: seq<Op>, k: string): int {
    if run == [] then 0
    else UnitsGranted(Most(run), k) + if GrantedLast(run) && Last(run).key == k then Last(run).quantity else 0
  }

  function UnitsReleased(run: seq<Op>, k: string): int {
    if run == [] then 0
    else UnitsReleased(Most(run), k) + if Last(run).Release? && Last(run).key == k then Last(run).quantity else 0
  }

  /** The first initial value: that of the first operation that creates the stock entry.
      A release of a product never added creates an entry counting from zero. */
  function Opening(run: seq<Op>, k: string): Option<int> {
    if run == [] then None
    else if Opening(Most(run), k).Some? then Opening(Most(run), k)
    else
      match Last(run)
      case Add(j, total) => if j == k then Some(total) else None
      case Release(j, _, _) => if j == k then Some(0) else None
      case _ => None
  }

  /** In every run of adds, deductions and releases: stock is the first initial value
      minus what was granted plus what was released. */
  lemma {:induction false} StockConserved(run: seq<Op>, k: string)
    ensures k in Final(run).stock <==> Opening(run, k).Some?
    ensures k in Final(run).stock ==>
      Final(run).stock[k] == Opening(run, k).value - UnitsGranted(run, k) + UnitsReleased(run, k)
    ensures k !in Final(run).stock ==> UnitsGranted(run, k) == 0 && UnitsReleased(run, k) == 0
  {
    if run != [] {
      StockConserved(Most(run), k);
    }
  }

  predicate PositiveQuantities(run: seq<Op>) {
    forall i :: 0 <= i < |run| ==>
      match run[i]
      case Add(_, total) => total >= 0
      case Deduct(_, _, q, _) => q > 0
      case Release(_, _, q) => q > 0
  }

  lemma {:induction false} StockNeverNegative(run: seq<Op>, k: string)
    requires PositiveQuantities(run)
    ensures Count(Final(run).stock, k) >= 0
  {
    if run != [] {
      StockNeverNegative(Most(run), k);
      assert run[|run| - 1] == Last(run);
    }
  }

  /** Adding a product again, anywhere in a run and with whatever initial value, leaves all
      stock and all counters as they would be without it. */
  lemma {:induction false} AddingAgainChangesNothing(before: seq<Op>, k: string, total: int, after: seq<Op>)
    requires Opening(before, k).Some?
    ensures Final(before + [Add(k, total)] + after) == Final(before + after)
    decreases |after|
  {
    var with, without := before + [Add(k, total)] + after, before + after;
    if after == [] {
      assert with == before + [Add(k, total)] && without == before;
      assert Most(with) == before;
      StockConserved(before, k);
    } else {
      assert Most(with) == before + [Add(k, total)] + Most(after) && Last(with) == Last(after);
      assert Most(without) == before + Most(after) && Last(without) == Last(after);
      hide Step;
      AddingAgainChangesNothing(before, k, total, Most(after));
    }
  }

  // ---------------------------------------------------------------------------
  // Purchase counters
  // ---------------------------------------------------------------------------

  /** Units granted to a user minus units that user gave back. */
  function Outstanding(run: seq<Op>, u: int, k: string): int {
    if run == [] then 0
    else
      var op := Last(run);
      Outstanding(Most(run), u, k)
        + (if GrantedLast(run) && op.user == u && op.key == k then op.quantity else 0)
        - (if op.Release? && op.user == u && op.key == k then op.quantity else 0)
  }

  /** Every deduction has a positive limit, and a release gives back units its user
      still holds (which repaying a distinct earlier grant implies). */
  predicate Repaying(run: seq<Op>) {
    run == [] ||
    (&& Repaying(Most(run))
     && match Last(run)
        case Add(_, _) => true
        case Deduct(_, _, q, limit) => q > 0 && limit > 0
        case Release(k, u, q) => 0 < q <= Outstanding(Most(run), u, k))
  }

  /** A counter is its user's outstanding units, and exists only while there are some. */
  lemma {:induction false} CounterIsOutstanding(run: seq<Op>, u: int, k: string)
    requires Repaying(run)
    ensures Count(Final(run).purchases, PurchaseKey(u, k)) == Outstanding(run, u, k)
    ensures Outstanding(run, u, k) >= 0
    ensures PurchaseKey(u, k) in Final(run).purchases <==> Outstanding(run, u, k) > 0
  {
    if run != [] {
      var op := Last(run);
      CounterIsOutstanding(Most(run), u, k);
      if !op.Add? && PurchaseKey(op.user, op.key) == PurchaseKey(u, k) {
        PurchaseKeyInjective(op.user, op.key, u, k);
      }
      hide PurchaseKey;
    }
  }

  predicate LimitIs(run: seq<Op>, k: string, limit: int) {
    forall i :: 0 <= i < |run| && run[i].Deduct? && run[i].key == k ==> run[i].limit == limit
  }

  lemma {:induction false} CounterWithinLimit(run: seq<Op>, u: int, k: string, limit: int)
    requires Repaying(run) && limit > 0 && LimitIs(run, k, limit)
    ensures Outstanding(run, u, k) <= limit
  {
    if run != [] {
      CounterWithinLimit(Most(run), u, k, limit);
      CounterIsOutstanding(Most(run), u, k);
      assert run[|run| - 1] == Last(run);
      hide PurchaseKey;
    }
  }

  // ---------------------------------------------------------------------------
  // Counters where some deductions have no limit
  // ---------------------------------------------------------------------------

  /** Units granted to a user by deductions without a limit, which no counter sees. */
  function Untracked(run: seq<Op>, u: int, k: string): int {
    if run == [] then 0
    else
      var op := Last(run);
      Untracked(Most(run), u, k)
        + if GrantedLast(run) && op.limit <= 0 && op.user == u && op.key == k then op.quantity else 0
  }

  /** Units a user gave back beyond what the counter showed, which it does not see either. */
  function Unseen(run: seq<Op>, u: int, k: string): int {
    if run == [] then 0
    else
      var op, counter := Last(run), Count(Final(Most(run)).purchases, PurchaseKey(u, k));
      Unseen(Most(run), u, k)
        + if op.Release? && op.user == u && op.key == k && counter <= op.quantity then op.quantity - counter else 0
  }

  /** In every run, whatever the limits and quantities: a counter is what its user holds, less
      what it did not see granted, plus what it did not see given back. */
  lemma {:induction false} CounterAccounts(run: seq<Op>, u: int, k: string)
    ensures Count(Final(run).purchases, PurchaseKey(u, k))
         == Outstanding(run, u, k) - Untracked(run, u, k) + Unseen(run, u, k)
  {
    if run != [] {
      var op := Last(run);
      CounterAccounts(Most(run), u, k);
      if !op.Add? && (op.user != u || op.key != k) {
        assert PurchaseKey(op.user, op.key) != PurchaseKey(u, k) by {
          if PurchaseKey(op.user, op.key) == PurchaseKey(u, k) {
            PurchaseKeyInjective(op.user, op.key, u, k);
          }
        }
      }
      hide PurchaseKey;
    }
  }

  /** A release gives back units its user still holds, whoever counts them. */
  predicate GivesBack(run: seq<Op>) {
    run == [] ||
    (&& GivesBack(Most(run))
     && match Last(run)
        case Add(_, _) => true
        case Deduct(_, _, q, _) => q > 0
        case Release(k, u, q) => 0 < q <= Outstanding(Most(run), u, k))
  }

  /** At this point every counter is its user's outstanding units. */
  ghost predicate Exact(run: seq<Op>) {
    forall u: int, k: string :: Count(Final(run).purchases, PurchaseKey(u, k)) == Outstanding(run, u, k)
  }

  ghost predicate ExactThroughout(run: seq<Op>) {
    Exact(run) && (run != [] ==> ExactThroughout(Most(run)))
  }

  /** Nothing was granted without a limit. */
  predicate NothingUntracked(run: seq<Op>) {
    run != [] ==> !(GrantedLast(run) && Last(run).limit <= 0) && NothingUntracked(Most(run))
  }

  lemma StaysExactIff(run: seq<Op>)
    requires run != [] && GivesBack(run) && Exact(Most(run))
    ensures Exact(run) <==> !(GrantedLast(run) && Last(run).limit <= 0)
  {
    var op, before := Last(run), Most(run);
    forall u: int, k: string
      ensures !op.Add? && op.user == u && op.key == k && GrantedLast(run) && op.limit <= 0 ==>
        Count(Final(run).purchases, PurchaseKey(u, k)) != Outstanding(run, u, k)
      ensures !(GrantedLast(run) && op.limit <= 0) ==>
        Count(Final(run).purchases, PurchaseKey(u, k)) == Outstanding(run, u, k)
    {
      CounterAccounts(run, u, k);
      CounterAccounts(before, u, k);
      assert Count(Final(before).purchases, PurchaseKey(u, k)) == Outstanding(before, u, k);
      hide PurchaseKey, Final;
    }
    hide PurchaseKey, Final, Outstanding;
  }

  /** Counters stay the outstanding units throughout a run exactly if nothing was granted
      without a limit. */
  lemma {:induction false} CountersExactIff(run: seq<Op>)
    requires GivesBack(run)
    ensures ExactThroughout(run) <==> NothingUntracked(run)
  {
    if run == [] {
      assert Exact(run);
    } else {
      CountersExactIff(Most(run));
      hide Exact;
      if NothingUntracked(Most(run)) {
        StaysExactIff(run);
      }
    }
  }

  predicate OneLimit(op: Op, k: string, limit: int) {
    op.Deduct? && op.key == k && op.limit > 0 ==> op.limit == limit
  }

  /** With a fixed limit where there is one, a user holds at most the limit and what the
      counter lost sight of. */
  lemma {:induction false} HoldingsBounded(run: seq<Op>, u: int, k: string, limit: int)
    requires GivesBack(run) && limit > 0
    requires forall i :: 0 <= i < |run| ==> OneLimit(run[i], k, limit)
    ensures Outstanding(run, u, k) <= limit + Untracked(run, u, k) - Unseen(run, u, k)
  {
    CounterAccounts(run, u, k);
    CounterBounded(run, u, k, limit);
  }

  lemma {:induction false} CounterBounded(run: seq<Op>, u: int, k: string, limit: int)
    requires GivesBack(run) && limit > 0
    requires forall i :: 0 <= i < |run| ==> OneLimit(run[i], k, limit)
    ensures Count(Final(run).purchases, PurchaseKey(u, k)) <= limit
  {
    if run != [] {
      var op := Last(run);
      assert op == run[|run| - 1];
      CounterBounded(Most(run), u, k, limit);
      if !op.Add? && (op.user != u || op.key != k) {
        assert PurchaseKey(op.user, op.key) != PurchaseKey(u, k) by {
          if PurchaseKey(op.user, op.key) == PurchaseKey(u, k) {
            PurchaseKeyInjective(op.user, op.key, u, k);
          }
        }
      }
      hide PurchaseKey;
    }
  }

  // ---------------------------------------------------------------------------
  // When a deduction is granted
  // ---------------------------------------------------------------------------

  /** Units of a product that nobody has. */
  function Left(run: seq<Op>, k: string): int
    requires Opening(run, k).Some?
  {
    Opening(run, k).value - UnitsGranted(run, k) + UnitsReleased(run, k)
  }

  /** After any run, a product never added or released is not ready, and otherwise a request
      is granted exactly if enough units are left and the user's counted units leave room for
      it under the limit, if there is one. */
  lemma {:induction false} GrantedExactlyIf(run: seq<Op>, k: string, u: int, q: int, limit: int)
    ensures var reply := Step(Final(run), Deduct(k, u, q, limit)).1;
            && (reply == NotReady <==> Opening(run, k).None?)
            && (reply == Granted <==>
                  && Opening(run, k).Some? && q <= Left(run, k)
                  && (limit <= 0 || Outstanding(run, u, k) - Untracked(run, u, k) + Unseen(run, u, k) + q <= limit))
            && reply != Fine
  {
    StockConserved(run, k);
    CounterAccounts(run, u, k);
    hide PurchaseKey, Final;
  }

  /** Where every deduction so far had a limit and releases repaid grants, what counts is what
      the user holds. */
  lemma {:induction false} GrantedByHoldings(run: seq<Op>, k: string, u: int, q: int, limit: int)
    requires Repaying(run)
    ensures Step(Final(run), Deduct(k, u, q, limit)).1 == Granted <==>
      Opening(run, k).Some? && q <= Left(run, k) && (limit <= 0 || Outstanding(run, u, k) + q <= limit)
  {
    GrantedExactlyIf(run, k, u, q, limit);
    CounterAccounts(run, u, k);
    CounterIsOutstanding(run, u, k);
    hide PurchaseKey, Final, Step, Left, Outstanding;
  }

  /** Requests for one unit of a product each, by different users who hold less than their
      limit, if they have one. */
  ghost predicate Queue(before: seq<Op>, k: string, buyers: seq<Op>) {
    && (forall i :: 0 <= i < |buyers| ==>
          && buyers[i].Deduct? && buyers[i].key == k && buyers[i].quantity == 1
          && (buyers[i].limit <= 0 || CountedOf(before, buyers[i]) < buyers[i].limit))
    && forall i, j :: 0 <= i < j < |buyers| ==> buyers[i].user != buyers[j].user
  }

  function CountedOf(before: seq<Op>, op: Op): int
    requires op.Deduct?
  {
    Outstanding(before, op.user, op.key) - Untracked(before, op.user, op.key) + Unseen(before, op.user, op.key)
  }

  lemma {:induction false} OthersLeaveCounter(before: seq<Op>, k: string, buyers: seq<Op>, u: int)
    requires forall i :: 0 <= i < |buyers| ==> buyers[i].Deduct? && buyers[i].key == k && buyers[i].user != u
    ensures Count(Final(before + buyers).purchases, PurchaseKey(u, k))
         == Count(Final(before).purchases, PurchaseKey(u, k))
    decreases |buyers|
  {
    if buyers == [] {
      assert before + buyers == before;
    } else {
      var op := Last(buyers);
      assert op == buyers[|buyers| - 1];
      assert Most(before + buyers) == before + Most(buyers) && Last(before + buyers) == op;
      OthersLeaveCounter(before, k, Most(buyers), u);
      if PurchaseKey(op.user, k) == PurchaseKey(u, k) {
        PurchaseKeyInjective(op.user, k, u, k);
      }
      hide PurchaseKey;
    }
  }

  lemma OthersLeaveCounted(before: seq<Op>, k: string, buyers: seq<Op>, op: Op)
    requires op.Deduct? && op.key == k
    requires forall i :: 0 <= i < |buyers| ==> buyers[i].Deduct? && buyers[i].key == k && buyers[i].user != op.user
    ensures CountedOf(before + buyers, op) == CountedOf(before, op)
  {
    hide PurchaseKey, Final, Outstanding, Untracked, Unseen;
    OthersLeaveCounter(before, k, buyers, op.user);
    CounterAccounts(before, op.user, k);
    CounterAccounts(before + buyers, op.user, k);
  }

  /** One more operation at the end of a run, seen from one product. */
  lemma OneMoreOp(run: seq<Op>, op: Op, k: string)
    requires op.Deduct? && Opening(run, k).Some?
    ensures Opening(run + [op], k) == Opening(run, k)
    ensures UnitsReleased(run + [op], k) == UnitsReleased(run, k)
    ensures UnitsGranted(run + [op], k) == UnitsGranted(run, k)
              + if Step(Final(run), op).1 == Granted && op.key == k then op.quantity else 0
  {
    assert Most(run + [op]) == run && Last(run + [op]) == op;
    hide Step, Final;
  }

  /** First come, first served: of such a queue as many requests are granted as units are
      left, the first ones, and everyone after them is refused. */
  lemma {:induction false} FirstComeFirstServed(before: seq<Op>, k: string, buyers: seq<Op>)
    requires Opening(before, k).Some? && Left(before, k) >= 0 && Queue(before, k, buyers)
    ensures forall i :: 0 <= i < |buyers| ==>
      Step(Final(before + buyers[..i]), buyers[i]).1 == if i < Left(before, k) then Granted else Refused
    ensures Opening(before + buyers, k) == Opening(before, k)
    ensures UnitsReleased(before + buyers, k) == UnitsReleased(before, k)
    ensures UnitsGranted(before + buyers, k) == UnitsGranted(before, k)
              + if |buyers| < Left(before, k) then |buyers| else Left(before, k)
    decreases |buyers|
  {
    hide Step, Final, Outstanding, Untracked, Unseen, PurchaseKey, Most, Last;
    if buyers == [] {
      assert before + buyers == before;
    } else {
      var n := |buyers| - 1;
      var op, most := buyers[n], before + buyers[..n];
      assert before + buyers == most + [op];
      FirstComeFirstServed(before, k, buyers[..n]);
      OthersLeaveCounted(before, k, buyers[..n], op);
      GrantedExactlyIf(most, k, op.user, 1, op.limit);
      assert CountedOf(most, op) == Outstanding(most, op.user, k) - Untracked(most, op.user, k)
                                    + Unseen(most, op.user, k);
      OneMoreOp(most, op, k);
      assert forall i :: 0 <= i < n ==> buyers[..n][..i] == buyers[..i] && buyers[..n][i] == buyers[i];
    }
  }

  lemma NothingYet(k: string, total: int)
    ensures Opening([Add(k, total)], k) == Some(total) && Left([Add(k, total)], k) == total
    ensures forall op: Op :: op.Deduct? && op.key == k ==> CountedOf([Add(k, total)], op) == 0
  {
    var opening := [Add(k, total)];
    assert Most(opening) == [] && Last(opening) == Add(k, total) && !GrantedLast(opening);
    assert UnitsGranted(opening, k) == UnitsGranted([], k) && UnitsReleased(opening, k) == UnitsReleased([], k);
    forall op: Op | op.Deduct? && op.key == k
      ensures CountedOf(opening, op) == 0
    {
      assert Outstanding(opening, op.user, k) == Outstanding([], op.user, k);
      assert Untracked(opening, op.user, k) == Untracked([], op.user, k);
      assert Unseen(opening, op.user, k) == Unseen([], op.user, k);
    }
  }

  /** A product opened with `total` units is sold out to the last one: of n users asking for
      one unit each, within whatever limits, exactly the smaller of n and `total` get one. */
  lemma {:induction false} SellsToTheLastUnit(k: string, total: nat, buyers: seq<Op>)
    requires forall i :: 0 <= i < |buyers| ==> buyers[i].Deduct? && buyers[i].key == k && buyers[i].quantity == 1
    requires forall i, j :: 0 <= i < j < |buyers| ==> buyers[i].user != buyers[j].user
    ensures UnitsGranted([Add(k, total)] + buyers, k) == if |buyers| < total then |buyers| else total
    ensures Count(Final([Add(k, total)] + buyers).stock, k) == if |buyers| < total then total - |buyers| else 0
  {
    var opening := [Add(k, total)];
    NothingYet(k, total);
    FirstComeFirstServed(opening, k, buyers);
    StockConserved(opening + buyers, k);
  }

  // ---------------------------------------------------------------------------
  // The counters of a product add up
  // ---------------------------------------------------------------------------

  /** The product a purchase key is about: what follows the user's numeral. */
  function ProductOf(purchaseKey: string): string {
    if |UpToColon(purchaseKey)| < |purchaseKey| then purchaseKey[|UpToColon(purchaseKey)| + 1..] else ""
  }

  lemma ProductOfPurchaseKey(u: int, k: string)
    ensures ProductOf(PurchaseKey(u, k)) == k
  {
    DecimalIsColonFree(u);
    UpToColonOf(Decimal(u), k);
  }

  /** The sum of the given entries. */
  ghost function SumOf(m: Counts, keys: set<string>): int
    requires keys <= m.Keys
    decreases |keys|
  {
    if keys == {} then 0
    else
      var p :| p in keys;
      m[p] + SumOf(m, keys - {p})
  }

  lemma {:induction false} SumPicks(m: Counts, keys: set<string>, p: string)
    requires keys <= m.Keys && p in keys
    ensures SumOf(m, keys) == m[p] + SumOf(m, keys - {p})
    decreases |keys|
  {
    var q :| q in keys && SumOf(m, keys) == m[q] + SumOf(m, keys - {q});
    if q != p {
      SumPicks(m, keys - {q}, p);
      SumPicks(m, keys - {p}, q);
      assert keys - {q} - {p} == keys - {p} - {q};
    }
  }

  lemma {:induction false} SumDependsOnEntries(m: Counts, n: Counts, keys: set<string>)
    requires keys <= m.Keys && keys <= n.Keys && forall p :: p in keys ==> m[p] == n[p]
    ensures SumOf(m, keys) == SumOf(n, keys)
    decreases |keys|
  {
    if keys != {} {
      var q :| q in keys && SumOf(m, keys) == m[q] + SumOf(m, keys - {q});
      SumDependsOnEntries(m, n, keys - {q});
      SumPicks(n, keys, q);
    }
  }

  function CountersFor(m: Counts, k: string): set<string> {
    set p | p in m && ProductOf(p) == k
  }

  ghost function CounterSum(m: Counts, k: string): int {
    SumOf(m, CountersFor(m, k))
  }

  lemma SetCounterMovesSum(m: Counts, p: string, v: int, k: string)
    ensures CounterSum(m[p := v], k) == CounterSum(m, k) + if ProductOf(p) == k then v - Count(m, p) else 0
  {
    hide ProductOf;
    var n := m[p := v];
    var others := CountersFor(m, k) - {p};
    SumDependsOnEntries(m, n, others);
    if ProductOf(p) == k {
      SumPicks(n, CountersFor(n, k), p);
      assert CountersFor(n, k) - {p} == others;
      if p in m {
        SumPicks(m, CountersFor(m, k), p);
      } else {
        assert CountersFor(m, k) == others;
      }
    } else {
      assert CountersFor(n, k) == CountersFor(m, k) == others;
    }
  }

  lemma DropCounterMovesSum(m: Counts, p: string, k: string)
    ensures CounterSum(m - {p}, k) == CounterSum(m, k) - if ProductOf(p) == k then Count(m, p) else 0
  {
    hide ProductOf;
    var n := m - {p};
    assert CountersFor(n, k) == CountersFor(m, k) - {p};
    SumDependsOnEntries(m, n, CountersFor(n, k));
    if p in CountersFor(m, k) {
      SumPicks(m, CountersFor(m, k), p);
    } else {
      assert CountersFor(n, k) == CountersFor(m, k);
    }
  }

  /** The counters of all users for a product add up to what was granted and not yet
      given back, that is to the first initial value minus the stock. */
  lemma {:induction false} CountersAddUp(run: seq<Op>, k: string)
    requires Repaying(run)
    ensures CounterSum(Final(run).purchases, k) == UnitsGranted(run, k) - UnitsReleased(run, k)
    ensures Opening(run, k).Some? ==>
      CounterSum(Final(run).purchases, k) == Opening(run, k).value - Count(Final(run).stock, k)
  {
    if run == [] {
      assert CountersFor(EMPTY.purchases, k) == {};
    } else {
      var op := Last(run);
      CountersAddUp(Most(run), k);
      if op.Release? {
        CounterIsOutstanding(Most(run), op.user, op.key);
      }
      StepMovesSum(Final(Most(run)), op, k);
      hide CounterSum, PurchaseKey, Step;
    }
    StockConserved(run, k);
  }

  /** One step on its own: a grant adds its quantity to its product's counters, a release
      that does not exceed the counter takes its quantity away. */
  lemma StepMovesSum(l: Ledger, op: Op, k: string)
    requires op.Deduct? ==> op.limit > 0
    requires op.Release? ==> op.quantity <= Count(l.purchases, PurchaseKey(op.user, op.key))
    ensures var (l', reply) := Step(l, op);
            CounterSum(l'.purchases, k) == CounterSum(l.purchases, k)
              + (if reply.Granted? && op.key == k then op.quantity else 0)
              - (if op.Release? && op.key == k then op.quantity else 0)
  {
    hide CounterSum, PurchaseKey, ProductOf;
    if !op.Add? {
      ProductOfPurchaseKey(op.user, op.key);
      var p, m := PurchaseKey(op.user, op.key), l.purchases;
      var m' := Step(l, op).0.purchases;
      if op.Release? && Count(m, p) <= op.quantity {
        assert m' == m - {p};
        DropCounterMovesSum(m, p, k);
      } else if op.Release? {
        assert m' == m[p := Count(m, p) - op.quantity];
        SetCounterMovesSum(m, p, Count(m, p) - op.quantity, k);
      } else if Step(l, op).1.Granted? {
        assert m' == m[p := Count(m, p) + op.quantity];
        SetCounterMovesSum(m, p, Count(m, p) + op.quantity, k);
      }
    }
  }

  // ---------------------------------------------------------------------------
  // The store
  // ---------------------------------------------------------------------------

  /** Adding each product of an activity in turn. */
  function AddAll(l: Ledger, activityNo: string, skus: seq<Sku>): Ledger {
    if skus == [] then l
    else
      var before := AddAll(l, activityNo, skus[..|skus| - 1]);
      var sku := skus[|skus| - 1];
      Step(before, Add(SkuKey(activityNo, sku.skuNo), sku.totalStock)).0
  }

  /** Filing each product of an activity under its stock key, as belonging to it. */
  function FileAll(filed: map<string, Sku>, activityNo: string, skus: seq<Sku>): map<string, Sku> {
    if skus == [] then filed
    else
      var sku := skus[|skus| - 1].(activityNo := activityNo);
      FileAll(filed, activityNo, skus[..|skus| - 1])[SkuKey(activityNo, sku.skuNo) := sku]
  }

  /** The products of an activity with one of them replaced, or added at the end. */
  function WithSku(skus: seq<Sku>, sku: Sku): seq<Sku> {
    if skus == [] then [sku]
    else if skus[0].skuNo == sku.skuNo then [sku] + skus[1..]
    else [skus[0]] + WithSku(skus[1..], sku)
  }

  function FindSku(skus: seq<Sku>, skuNo: string): Option<Sku> {
    if skus == [] then None
    else if skus[0].skuNo == skuNo then Some(skus[0])
    else FindSku(skus[1..], skuNo)
  }

  predicate ListedOnce(skus: seq<Sku>) {
    forall i, j :: 0 <= i < j < |skus| ==> skus[i].skuNo != skus[j].skuNo
  }

  /** Adding a product to an activity that has it replaces it where it stands, and otherwise
      adds it; every other product is found as before, and none is listed twice. */
  lemma {:induction false} AddedIsFound(skus: seq<Sku>, sku: Sku, skuNo: string)
    ensures FindSku(WithSku(skus, sku), skuNo) == if skuNo == sku.skuNo then Some(sku) else FindSku(skus, skuNo)
    ensures |WithSku(skus, sku)| == |skus| + if FindSku(skus, sku.skuNo).Some? then 0 else 1
    ensures ListedOnce(skus) ==> ListedOnce(WithSku(skus, sku))
    ensures forall s :: s in WithSku(skus, sku) ==> s == sku || s in skus
    decreases |skus|
  {
    if skus != [] {
      var all, rest := WithSku(skus, sku), WithSku(skus[1..], sku);
      AddedIsFound(skus[1..], sku, skuNo);
      if skus[0].skuNo == sku.skuNo {
        assert all[1..] == skus[1..];
      } else {
        assert all[1..] == rest;
        forall i | 0 <= i < |rest|
          ensures rest[i] == sku || rest[i] in skus[1..]
        {
          assert rest[i] in rest;
        }
      }
    }
  }

  /** After an activity was filed, each of its products is found under its stock key, as the
      last one listed with that number and as belonging to the activity. */
  lemma {:induction false} FiledIsFound(filed: map<string, Sku>, activityNo: string, skus: seq<Sku>, i: nat)
    requires i < |skus| && forall j :: i < j < |skus| ==> skus[j].skuNo != skus[i].skuNo
    ensures var key := SkuKey(activityNo, skus[i].skuNo);
            var after := FileAll(filed, activityNo, skus);
            key in after && after[key] == skus[i].(activityNo := activityNo)
    decreases |skus|
  {
    var n := |skus| - 1;
    if i < n {
      FiledIsFound(filed, activityNo, skus[..n], i);
      if SkuKey(activityNo, skus[n].skuNo) == SkuKey(activityNo, skus[i].skuNo) {
        SameProduct(activityNo, skus[n].skuNo, skus[i].skuNo);
      }
    }
    hide SkuKey;
  }

  lemma SameProduct(activityNo: string, s: string, t: string)
    requires SkuKey(activityNo, s) == SkuKey(activityNo, t)
    ensures s == t
  {
    var from := |activityNo| + 1;
    assert SkuKey(activityNo, s)[from..] == s && SkuKey(activityNo, t)[from..] == t;
  }

  /** What is filed under any other key stays. */
  lemma {:induction false} FilingKeepsOthers(filed: map<string, Sku>, activityNo: string, skus: seq<Sku>, key: string)
    requires forall i :: 0 <= i < |skus| ==> SkuKey(activityNo, skus[i].skuNo) != key
    ensures var after := FileAll(filed, activityNo, skus);
            (key in after <==> key in filed) && (key in filed ==> after[key] == filed[key])
    decreases |skus|
  {
    if skus != [] {
      FilingKeepsOthers(filed, activityNo, skus[..|skus| - 1], key);
      hide SkuKey;
    }
  }

  /** The stock key of one of the listed products. */
  predicate Listed(key: string, activityNo: string, skuNos: seq<string>) {
    exists i :: 0 <= i < |skuNos| && key == SkuKey(activityNo, skuNos[i])
  }

  class MemoryStore {
    var activities: map<string, Activity>
    var skus: map<string, Sku>
    var stock: Counts
    var purchases: Counts

    ghost function Books(): Ledger
      reads this
    {
      Ledger(stock, purchases)
    }

    constructor ()
      ensures Books() == EMPTY && activities == map[] && skus == map[]
    {
      activities, skus, stock, purchases := map[], map[], map[], map[];
    }

    method AddActivity(activity: Activity)
      modifies this
      ensures Books() == AddAll(old(Books()), activity.activityNo, activity.skus)
      ensures activities == old(activities)[activity.activityNo := activity]
      ensures skus == FileAll(old(skus), activity.activityNo, activity.skus)
    {
      activities := activities[activity.activityNo := activity];
      for i := 0 to |activity.skus|
        invariant Books() == AddAll(old(Books()), activity.activityNo, activity.skus[..i])
        invariant activities == old(activities)[activity.activityNo := activity]
        invariant skus == FileAll(old(skus), activity.activityNo, activity.skus[..i])
      {
        var sku := activity.skus[i].(activityNo := activity.activityNo);
        var key := SkuKey(activity.activityNo, sku.skuNo);
        skus := skus[key := sku];
        if key !in stock {
          stock := stock[key := sku.totalStock];
        }
        assert activity.skus[..i + 1][..i] == activity.skus[..i];
      }
      assert activity.skus[..|activity.skus|] == activity.skus;
    }

    method AddActivitySKU(activityNo: string, given: Sku) returns (found: bool)
      modifies this
      ensures found <==> activityNo in old(activities)
      ensures !found ==> Books() == old(Books()) && activities == old(activities) && skus == old(skus)
      ensures found ==>
        && Books() == Step(old(Books()), Add(SkuKey(activityNo, given.skuNo), given.totalStock)).0
        && skus == old(skus)[SkuKey(activityNo, given.skuNo) := given.(activityNo := activityNo)]
        && activities == old(activities)[activityNo :=
             old(activities)[activityNo].(
               skus := WithSku(old(activities)[activityNo].skus, given.(activityNo := activityNo)))]
    {
      if activityNo !in activities {
        return false;
      }
      var activity := activities[activityNo];
      var sku := given.(activityNo := activityNo);
      var key := SkuKey(activityNo, sku.skuNo);
      skus := skus[key := sku];
      if key !in stock {
        stock := stock[key := sku.totalStock];
      }
      var listed := ReplaceOrAppend(activity.skus, sku);
      activities := activities[activityNo := activity.(skus := listed)];
      return true;
    }

    method DeductStockWithLimit(activityNo: string, skuNo: string, userID: int, quantity: int, purchaseLimit: int)
      returns (reply: Reply)
      modifies this`stock, this`purchases
      ensures (Books(), reply) == Step(old(Books()), Deduct(SkuKey(activityNo, skuNo), userID, quantity, purchaseLimit))
    {
      UserPurchaseKeyIsPurchaseKey(userID, activityNo, skuNo);
      var key := SkuKey(activityNo, skuNo);
      if key !in stock {
        return NotReady;
      }
      var purchaseKey := UserPurchaseKey(userID, activityNo, skuNo);
      if purchaseLimit > 0 && Count(purchases, purchaseKey) + quantity > purchaseLimit {
        return Refused;
      }
      if stock[key] < quantity {
        return Refused;
      }
      stock := stock[key := stock[key] - quantity];
      if purchaseLimit > 0 {
        purchases := purchases[purchaseKey := Count(purchases, purchaseKey) + quantity];
      }
      return Granted;
    }

    method ReleaseStock(activityNo: string, skuNo: string, userID: int, quantity: int)
      modifies this`stock, this`purchases
      ensures Books() == Step(old(Books()), Release(SkuKey(activityNo, skuNo), userID, quantity)).0
    {
      UserPurchaseKeyIsPurchaseKey(userID, activityNo, skuNo);
      var key := SkuKey(activityNo, skuNo);
      stock := stock[key := Count(stock, key) + quantity];
      var purchaseKey := UserPurchaseKey(userID, activityNo, skuNo);
      if Count(purchases, purchaseKey) <= quantity {
        purchases := purchases - {purchaseKey};
        return;
      }
      purchases := purchases[purchaseKey := Count(purchases, purchaseKey) - quantity];
    }

    /** With a list: exactly the listed products of the activity. Without: exactly the
        entries whose key starts with the activity number and a colon. */
    method CleanupActivityStock(activityNo: string, skuNos: seq<string>) returns (deleted: nat)
      modifies this`stock
      ensures skuNos != [] ==>
        stock == map k | k in old(stock) && !Listed(k, activityNo, skuNos) :: old(stock)[k]
      ensures skuNos == [] ==>
        stock == map k | k in old(stock) && !HasPrefix(k, activityNo + ":") :: old(stock)[k]
      ensures deleted == |old(stock)| - |stock|
    {
      if |skuNos| > 0 {
        deleted := RemoveListed(activityNo, skuNos);
      } else {
        deleted := RemoveByPrefix(activityNo + ":");
      }
    }

    method RemoveListed(activityNo: string, skuNos: seq<string>) returns (deleted: nat)
      modifies this`stock
      ensures stock == map k | k in old(stock) && !Listed(k, activityNo, skuNos) :: old(stock)[k]
      ensures deleted == |old(stock)| - |stock|
    {
      hide SkuKey;
      deleted := 0;
      for i := 0 to |skuNos|
        invariant forall k :: k in stock <==>
          k in old(stock) && forall j :: 0 <= j < i ==> k != SkuKey(activityNo, skuNos[j])
        invariant forall k :: k in stock ==> stock[k] == old(stock)[k]
        invariant deleted == |old(stock)| - |stock|
      {
        var key := SkuKey(activityNo, skuNos[i]);
        if key in stock {
          RemovalShrinks(stock, key);
          stock := stock - {key};
          deleted := deleted + 1;
        }
      }
    }

    method RemoveByPrefix(prefix: string) returns (deleted: nat)
      modifies this`stock
      ensures stock == map k | k in old(stock) && !HasPrefix(k, prefix) :: old(stock)[k]
      ensures deleted == |old(stock)| - |stock|
    {
      deleted := 0;
      var unseen := stock.Keys;
      while unseen != {}
        invariant unseen <= old(stock).Keys
        invariant stock == map k | k in old(stock) && (k in unseen || !HasPrefix(k, prefix)) :: old(stock)[k]
        invariant deleted == |old(stock)| - |stock|
        decreases |unseen|
      {
        var key :| key in unseen;
        if HasPrefix(key, prefix) {
          RemovalShrinks(stock, key);
          stock := stock - {key};
          deleted := deleted + 1;
        }
        unseen := unseen - {key};
      }
    }

    method CleanupActivityPurchases(activityNo: string) returns (deleted: nat)
      modifies this`purchases
      ensures purchases == map k | k in old(purchases) && !Contains(k, ":" + activityNo + ":") :: old(purchases)[k]
      ensures deleted == |old(purchases)| - |purchases|
    {
      deleted := 0;
      var segment := ":" + activityNo + ":";
      var unseen := purchases.Keys;
      while unseen != {}
        invariant unseen <= old(purchases).Keys
        invariant purchases ==
          map k | k in old(purchases) && (k in unseen || !Contains(k, segment)) :: old(purchases)[k]
        invariant deleted == |old(purchases)| - |purchases|
        decreases |unseen|
      {
        var key :| key in unseen;
        if Contains(key, segment) {
          RemovalShrinks(purchases, key);
          purchases := purchases - {key};
          deleted := deleted + 1;
        }
        unseen := unseen - {key};
      }
    }
  }

  method ReplaceOrAppend(skus: seq<Sku>, sku: Sku) returns (listed: seq<Sku>)
    ensures listed == WithSku(skus, sku)
  {
    listed := skus;
    for i := 0 to |skus|
      invariant listed == skus
      invariant WithSku(skus, sku) == skus[..i] + WithSku(skus[i..], sku)
    {
      if skus[i].skuNo == sku.skuNo {
        listed := skus[i := sku];
        assert listed == skus[..i] + ([sku] + skus[i..][1..]);
        return;
      }
      assert skus[..i + 1] + WithSku(skus[i + 1..], sku) == skus[..i] + ([skus[i]] + WithSku(skus[i..][1..], sku));
    }
    listed := skus + [sku];
  }

  lemma RemovalShrinks(m: Counts, k: string)
    requires k in m
    ensures |m - {k}| == |m| - 1
  {
    assert (m - {k}).Keys == m.Keys - {k};
  }

  // ---------------------------------------------------------------------------
  // What the cleanups remove
  // ---------------------------------------------------------------------------

  /** All entries belong to activities and products without a colon in their numbers. */
  ghost predicate PlainStock(m: Counts) {
    forall k :: k in m ==> exists a, s :: ColonFree(a) && ColonFree(s) && k == SkuKey(a, s)
  }

  ghost predicate PlainPurchases(m: Counts) {
    forall k :: k in m ==> exists u, a, s :: ColonFree(a) && ColonFree(s) && k == UserPurchaseKey(u, a, s)
  }

  ghost predicate StockOf(activityNo: string, k: string) {
    exists s :: ColonFree(s) && k == SkuKey(activityNo, s)
  }

  ghost predicate PurchaseOf(activityNo: string, k: string) {
    exists u, s :: ColonFree(s) && k == UserPurchaseKey(u, activityNo, s)
  }

  /** Cleaning up an activity's stock without a list leaves exactly the entries of all
      other activities. */
  lemma {:induction false} StockCleanupIsExact(m: Counts, activityNo: string)
    requires ColonFree(activityNo) && PlainStock(m)
    ensures (map k | k in m && !HasPrefix(k, activityNo + ":") :: m[k])
         == (map k | k in m && !StockOf(activityNo, k) :: m[k])
  {
    forall k | k in m
      ensures HasPrefix(k, activityNo + ":") <==> StockOf(activityNo, k)
    {
      var a, s :| ColonFree(a) && ColonFree(s) && k == SkuKey(a, s);
      PrefixMatchesActivity(activityNo, a, s);
      if t :| ColonFree(t) && k == SkuKey(activityNo, t) {
        SkuKeyInjective(a, s, activityNo, t);
      }
    }
  }

  /** With a list, an entry goes exactly if it is of one of the listed products of the
      activity. */
  lemma {:induction false} ListedMatches(activityNo: string, skuNos: seq<string>, a: string, s: string)
    requires ColonFree(activityNo) && ColonFree(a)
    ensures Listed(SkuKey(a, s), activityNo, skuNos) <==> a == activityNo && s in skuNos
  {
    if Listed(SkuKey(a, s), activityNo, skuNos) {
      var i :| 0 <= i < |skuNos| && SkuKey(a, s) == SkuKey(activityNo, skuNos[i]);
      SkuKeyInjective(a, s, activityNo, skuNos[i]);
    }
  }

  /** The same for purchase counters. */
  lemma {:induction false} PurchaseCleanupIsExact(m: Counts, activityNo: string)
    requires ColonFree(activityNo) && PlainPurchases(m)
    ensures (map k | k in m && !Contains(k, ":" + activityNo + ":") :: m[k])
         == (map k | k in m && !PurchaseOf(activityNo, k) :: m[k])
  {
    forall k | k in m
      ensures Contains(k, ":" + activityNo + ":") <==> PurchaseOf(activityNo, k)
    {
      var u, a, s :| ColonFree(a) && ColonFree(s) && k == UserPurchaseKey(u, a, s);
      SubstringMatchesActivity(activityNo, u, a, s);
      if v, t :| ColonFree(t) && k == UserPurchaseKey(v, activityNo, t) {
        UserPurchaseKeyInjective(u, a, s, v, activityNo, t);
      }
    }
  }

  ghost predicate PlainKey(k: string) {
    exists a, s :: ColonFree(a) && ColonFree(s) && k == SkuKey(a, s)
  }

  /** Runs on activities and products without a colon in their numbers only ever make such
      entries, so the cleanups are exact after every one of them. */
  lemma {:induction false} RunsStayPlain(run: seq<Op>)
    requires forall i :: 0 <= i < |run| ==> PlainKey(run[i].key)
    ensures PlainStock(Final(run).stock) && PlainPurchases(Final(run).purchases)
  {
    if run != [] {
      RunsStayPlain(Most(run));
      var op := Last(run);
      assert PlainKey(run[|run| - 1].key);
      var a, s :| ColonFree(a) && ColonFree(s) && op.key == SkuKey(a, s);
      if !op.Add? {
        UserPurchaseKeyIsPurchaseKey(op.user, a, s);
      }
    }
  }
}
