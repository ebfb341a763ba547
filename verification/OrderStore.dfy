/** The in-memory order store: a state machine per order, and listings sorted by creation
    time. Times are integers. */
module OrderStore {
  import opened Prelude

  const PENDING := "PENDING_PAY"
  const PAID := "PAID"
  const CLOSED := "CLOSED"

  datatype Order = Order(
    orderNo: string, userID: int, activityNo: string, payAmount: int, status: string,
    transactionNo: string, paidAt: Option<int>, closedAt: Option<int>, createdAt: int)

  type Orders = map<string, Order>

  // ---------------------------------------------------------------------------
  // Transitions
  // ---------------------------------------------------------------------------

  const ALLOWED: map<string, seq<string>> := map[PENDING := [PAID, CLOSED], PAID := [], CLOSED := []]

  predicate CanTransition(from: string, to: string) {
    from in ALLOWED && to in ALLOWED[from]
  }

  function TransitPaid(o: Order, transactionNo: string, at: int): (Order, bool) {
    if o.status == PAID then (o, true)
    else if !CanTransition(o.status, PAID) then (o, false)
    else (o.(status := PAID, transactionNo := transactionNo, paidAt := Some(at)), true)
  }

  function TransitClosed(o: Order, at: int): (Order, bool) {
    if o.status == CLOSED then (o, true)
    else if !CanTransition(o.status, CLOSED) then (o, false)
    else (o.(status := CLOSED, closedAt := Some(at)), true)
  }

  datatype Op =
    | Create(order: Order)
    | Pay(no: string, transactionNo: string, at: int)
    | Close(no: string, at: int)

  datatype Reply = Done | Duplicate | NotFound | InvalidState

  function Step(m: Orders, op: Op): (Orders, Reply) {
    match op
    case Create(o) => if o.orderNo in m then (m, Duplicate) else (m[o.orderNo := o], Done)
    case Pay(no, txn, at) =>
      if no !in m then (m, NotFound)
      else
        var (o, ok) := TransitPaid(m[no], txn, at);
        if ok then (m[no := o], Done) else (m, InvalidState)
    case Close(no, at) =>
      if no !in m then (m, NotFound)
      else
        var (o, ok) := TransitClosed(m[no], at);
        if ok then (m[no := o], Done) else (m, InvalidState)
  }

  function Final(m: Orders, run: seq<Op>): Orders
    decreases |run|
  {
    if run == [] then m else Final(Step(m, run[0]).0, run[1..])
  }

  // ---------------------------------------------------------------------------
  // The first outcome is the only one
  // ---------------------------------------------------------------------------

  predicate Terminal(o: Order) {
    o.status == PAID || o.status == CLOSED
  }

  /** Created pending, without timestamps. */
  predicate Pending(o: Order) {
    o.status == PENDING && o.paidAt == None && o.closedAt == None
  }

  /** A paid or closed record never changes again, whatever is called. */
  lemma {:induction false} TerminalForever(m: Orders, run: seq<Op>, no: string)
    requires no in m && Terminal(m[no])
    ensures no in Final(m, run) && Final(m, run)[no] == m[no]
    decreases |run|
  {
    if run != [] {
      TerminalForever(Step(m, run[0]).0, run[1..], no);
    }
  }

  predicate Decides(op: Op, no: string) {
    (op.Pay? || op.Close?) && op.no == no
  }

  /** The first call in a run that pays or closes the given order. */
  function FirstDecision(run: seq<Op>, no: string): Option<Op>
    decreases |run|
  {
    if run == [] then None
    else if Decides(run[0], no) then Some(run[0])
    else FirstDecision(run[1..], no)
  }

  function Decided(o: Order, decision: Option<Op>): Order {
    match decision
    case Some(Pay(_, txn, at)) => o.(status := PAID, transactionNo := txn, paidAt := Some(at))
    case Some(Close(_, at)) => o.(status := CLOSED, closedAt := Some(at))
    case _ => o
  }

  /** In every run, a pending order ends as its first payment or closing left it:
      transaction number and timestamps are those of that call and of no later one. */
  lemma {:induction false} FirstDecisionWins(m: Orders, run: seq<Op>, no: string)
    requires no in m && Pending(m[no])
    ensures no in Final(m, run) && Final(m, run)[no] == Decided(m[no], FirstDecision(run, no))
    decreases |run|
  {
    if run != [] {
      var next := Step(m, run[0]).0;
      if Decides(run[0], no) {
        assert PAID in ALLOWED[PENDING] && CLOSED in ALLOWED[PENDING];
        assert next[no] == Decided(m[no], Some(run[0]));
        TerminalForever(next, run[1..], no);
      } else {
        FirstDecisionWins(next, run[1..], no);
      }
    }
  }

  /** A pending order has no timestamp, a terminal one exactly the one of its outcome. */
  predicate WellFormed(o: Order) {
    || Pending(o)
    || (o.status == PAID && o.paidAt.Some? && o.closedAt == None)
    || (o.status == CLOSED && o.paidAt == None && o.closedAt.Some?)
  }

  predicate AllWellFormed(m: Orders) {
    forall k :: k in m ==> WellFormed(m[k]) && m[k].orderNo == k
  }

  lemma {:induction false} RunKeepsWellFormed(m: Orders, run: seq<Op>)
    requires AllWellFormed(m)
    requires forall i :: 0 <= i < |run| && run[i].Create? ==> Pending(run[i].order)
    ensures AllWellFormed(Final(m, run))
    decreases |run|
  {
    if run != [] {
      StepKeepsWellFormed(m, run[0]);
      RunKeepsWellFormed(Step(m, run[0]).0, run[1..]);
    }
  }

  lemma StepKeepsWellFormed(m: Orders, op: Op)
    requires AllWellFormed(m) && (op.Create? ==> Pending(op.order))
    ensures AllWellFormed(Step(m, op).0)
  {
    assert !CanTransition(PAID, CLOSED) && !CanTransition(CLOSED, PAID);
  }

  /** A payment is acknowledged exactly when the order is paid afterwards; when it was
      paid before, the new transaction number is acknowledged and dropped. */
  lemma PaymentAcknowledgedIff(m: Orders, no: string, txn: string, at: int)
    requires AllWellFormed(m)
    ensures var (m', reply) := Step(m, Pay(no, txn, at));
            && (reply == Done <==> no in m' && m'[no].status == "PAID")
            && (no in m && m[no].status == "PAID" ==> m' == m)
            && (reply == InvalidState <==> no in m && m[no].status == "CLOSED")
            && (reply == NotFound <==> no !in m)
  {
    assert PAID in ALLOWED[PENDING] && !CanTransition(CLOSED, PAID);
    if no in m {
      assert m[no := m[no]] == m;
    }
  }

  /** A closing is acknowledged exactly when the order is closed afterwards. */
  lemma ClosingAcknowledgedIff(m: Orders, no: string, at: int)
    requires AllWellFormed(m)
    ensures var (m', reply) := Step(m, Close(no, at));
            && (reply == Done <==> no in m' && m'[no].status == "CLOSED")
            && (no in m && m[no].status == "CLOSED" ==> m' == m)
            && (reply == InvalidState <==> no in m && m[no].status == "PAID")
            && (reply == NotFound <==> no !in m)
  {
    assert CLOSED in ALLOWED[PENDING] && !CanTransition(PAID, CLOSED);
    if no in m {
      assert m[no := m[no]] == m;
    }
  }

  /** The first creation under a number is the one that counts, whatever is called before and
      after: every later one is refused and changes nothing. */
  lemma {:induction false} FirstCreationWins(m: Orders, run: seq<Op>, o: Order, again: Order)
    requires o.orderNo !in m && again.orderNo == o.orderNo
    ensures Step(m, Create(o)) == (m[o.orderNo := o], Done)
    ensures var after := Final(m[o.orderNo := o], run); Step(after, Create(again)) == (after, Duplicate)
  {
    NumbersStay(m[o.orderNo := o], run, o.orderNo);
  }

  lemma {:induction false} NumbersStay(m: Orders, run: seq<Op>, no: string)
    requires no in m
    ensures no in Final(m, run)
    decreases |run|
  {
    if run != [] {
      NumbersStay(Step(m, run[0]).0, run[1..], no);
    }
  }

  // ---------------------------------------------------------------------------
  // Listing order
  // ---------------------------------------------------------------------------

  /** Byte-wise string order. */
  predicate Less(a: string, b: string) {
    b != "" && (a == "" || a[0] < b[0] || (a[0] == b[0] && Less(a[1..], b[1..])))
  }

  lemma {:induction false} LessIsTotal(a: string, b: string)
    ensures a == b || Less(a, b) || Less(b, a)
  {
    if a != "" && b != "" && a[0] == b[0] {
      LessIsTotal(a[1..], b[1..]);
      assert a == [a[0]] + a[1..] && b == [b[0]] + b[1..];
    }
  }

  lemma {:induction false} LessIsAsymmetric(a: string, b: string)
    requires Less(a, b)
    ensures !Less(b, a)
  {
    if a != "" && a[0] == b[0] {
      LessIsAsymmetric(a[1..], b[1..]);
    }
  }

  lemma {:induction false} LessIsTransitive(a: string, b: string, c: string)
    requires Less(a, b) && Less(b, c)
    ensures Less(a, c)
  {
    if a != "" && a[0] == b[0] == c[0] {
      LessIsTransitive(a[1..], b[1..], c[1..]);
    }
  }

  /** Newest first; at equal creation times, greater order number first. */
  predicate Before(a: Order, b: Order) {
    if a.createdAt == b.createdAt then Less(b.orderNo, a.orderNo) else a.createdAt > b.createdAt
  }

  lemma BeforeIsStrictOrder(a: Order, b: Order, c: Order)
    ensures Before(a, b) ==> !Before(b, a)
    ensures Before(a, b) && Before(b, c) ==> Before(a, c)
    ensures a.orderNo != b.orderNo ==> Before(a, b) || Before(b, a)
  {
    if Less(b.orderNo, a.orderNo) {
      LessIsAsymmetric(b.orderNo, a.orderNo);
      if Less(c.orderNo, b.orderNo) {
        LessIsTransitive(c.orderNo, b.orderNo, a.orderNo);
      }
    }
    LessIsTotal(a.orderNo, b.orderNo);
  }

  ghost predicate InOrder(s: seq<Order>) {
    forall i, j :: 0 <= i < j < |s| ==> Before(s[i], s[j])
  }

  datatype Filter = ByActivity(activityNo: string) | ByUser(userID: int) {
    predicate Matches(o: Order) {
      match this
      case ByActivity(a) => o.activityNo == a
      case ByUser(u) => o.userID == u
    }
  }

  /** The matching orders of the store, each once, newest first. */
  ghost predicate IsListing(m: Orders, f: Filter, s: seq<Order>) {
    && InOrder(s)
    && forall o :: o in s <==> o.orderNo in m && m[o.orderNo] == o && f.Matches(o)
  }

  lemma {:induction false} SameElementsSameOrder(s: seq<Order>, t: seq<Order>)
    requires InOrder(s) && InOrder(t)
    requires forall o :: o in s <==> o in t
    ensures s == t
    decreases |s|
  {
    NonEmptyHasElement(s);
    NonEmptyHasElement(t);
    if s != [] {
      assert s[0] in t;
      SameHead(s, t);
      assert s == [s[0]] + s[1..] && t == [t[0]] + t[1..];
      forall o
        ensures o in s[1..] <==> o in t[1..]
      {
        HeadNotInTail(s);
        HeadNotInTail(t);
        assert o in s <==> o == s[0] || o in s[1..];
        assert o in t <==> o == t[0] || o in t[1..];
      }
      SameElementsSameOrder(s[1..], t[1..]);
    }
  }

  lemma NonEmptyHasElement(s: seq<Order>)
    ensures s != [] ==> exists o :: o in s
  {
    if s != [] {
      assert s[0] in s;
    }
  }

  lemma HeadNotInTail(s: seq<Order>)
    requires s != [] && InOrder(s)
    ensures s[0] !in s[1..]
  {
    forall i | 0 <= i < |s[1..]|
      ensures s[1..][i] != s[0]
    {
      assert Before(s[0], s[i + 1]);
      BeforeIsStrictOrder(s[0], s[i + 1], s[0]);
    }
  }

  lemma SameHead(s: seq<Order>, t: seq<Order>)
    requires s != [] && t != [] && InOrder(s) && InOrder(t)
    requires forall o :: o in s <==> o in t
    ensures s[0] == t[0]
  {
    assert s[0] in t && t[0] in s;
    var i :| 0 <= i < |t| && t[i] == s[0];
    var j :| 0 <= j < |s| && s[j] == t[0];
    BeforeIsStrictOrder(s[0], t[0], s[0]);
  }

  /** A store and a filter determine the listing, so no iteration order of the map can
      show in it. */
  lemma {:induction false} ListingIsUnique(m: Orders, f: Filter, s: seq<Order>, t: seq<Order>)
    requires IsListing(m, f, s) && IsListing(m, f, t)
    ensures s == t
  {
    SameElementsSameOrder(s, t);
  }

  /** At the first place where they differ `a` has the smaller character, or it ends there. */
  ghost predicate Precedes(a: string, b: string) {
    exists i :: DiffersAt(a, b, i)
  }

  predicate DiffersAt(a: string, b: string, i: nat) {
    && i <= |a| && i < |b|
    && (forall j :: 0 <= j < i ==> a[j] == b[j])
    && (i < |a| ==> a[i] < b[i])
  }

  lemma {:induction false} LessIsPrecedes(a: string, b: string)
    ensures Less(a, b) <==> Precedes(a, b)
  {
    if a != "" && b != "" && a[0] == b[0] {
      LessIsPrecedes(a[1..], b[1..]);
      if Precedes(a, b) {
        var i: nat :| DiffersAt(a, b, i);
        assert DiffersAt(a[1..], b[1..], i - 1);
      }
      if Precedes(a[1..], b[1..]) {
        var i: nat :| DiffersAt(a[1..], b[1..], i);
        assert DiffersAt(a, b, i + 1) by {
          assert forall j :: 0 < j < i + 1 ==> a[j] == a[1..][j - 1] && b[j] == b[1..][j - 1];
        }
      }
    } else if b != "" && (a == "" || a[0] < b[0]) {
      assert DiffersAt(a, b, 0);
    }
  }

  /** Along a listing creation times never increase, and where they are equal order numbers
      decrease; it holds exactly the orders of the activity, or of the user, asked for. */
  lemma {:induction false} ListingIsNewestFirst(m: Orders, f: Filter, s: seq<Order>)
    requires IsListing(m, f, s)
    ensures forall i, j :: 0 <= i < j < |s| ==>
      && s[i].createdAt >= s[j].createdAt
      && (s[i].createdAt == s[j].createdAt ==> Precedes(s[j].orderNo, s[i].orderNo))
    ensures forall k :: k in m && m[k].orderNo == k ==>
      (m[k] in s <==> match f case ByActivity(a) => m[k].activityNo == a case ByUser(u) => m[k].userID == u)
    ensures forall i :: 0 <= i < |s| ==> s[i].orderNo in m && m[s[i].orderNo] == s[i]
  {
    forall i, j | 0 <= i < j < |s|
      ensures s[i].createdAt >= s[j].createdAt
      ensures s[i].createdAt == s[j].createdAt ==> Precedes(s[j].orderNo, s[i].orderNo)
    {
      assert Before(s[i], s[j]);
      LessIsPrecedes(s[j].orderNo, s[i].orderNo);
    }
    forall i | 0 <= i < |s|
      ensures s[i].orderNo in m && m[s[i].orderNo] == s[i]
    {
      assert s[i] in s;
    }
  }

  /** `o` put in its place among orders already in place. */
  function Insert(o: Order, s: seq<Order>): seq<Order> {
    if s == [] || Before(o, s[0]) then [o] + s else [s[0]] + Insert(o, s[1..])
  }

  lemma {:induction false} InsertKeepsOrder(o: Order, s: seq<Order>)
    requires InOrder(s) && forall i :: 0 <= i < |s| ==> s[i].orderNo != o.orderNo
    ensures InOrder(Insert(o, s))
    ensures forall x :: x in Insert(o, s) <==> x == o || x in s
    decreases |s|
  {
    if s == [] {
    } else if Before(o, s[0]) {
      forall i | 0 <= i < |s|
        ensures Before(o, s[i])
      {
        BeforeIsStrictOrder(o, s[0], s[i]);
      }
    } else {
      InsertKeepsOrder(o, s[1..]);
      var rest := Insert(o, s[1..]);
      BeforeIsStrictOrder(s[0], o, o);
      BeforeIsStrictOrder(o, s[0], o);
      assert s == [s[0]] + s[1..];
      forall i | 0 <= i < |rest|
        ensures Before(s[0], rest[i])
      {
        assert rest[i] in rest;
      }
    }
  }

  // ---------------------------------------------------------------------------
  // The store
  // ---------------------------------------------------------------------------

  class MemoryStore {
    var orders: Orders

    /** Every record is filed under its own number. */
    ghost predicate Valid()
      reads this
    {
      forall k :: k in orders ==> orders[k].orderNo == k
    }

    constructor ()
      ensures Valid() && orders == map[]
    {
      orders := map[];
    }

    method CreateOrder(order: Order) returns (reply: Reply)
      requires Valid()
      modifies this
      ensures Valid() && (orders, reply) == Step(old(orders), Create(order))
    {
      if order.orderNo in orders {
        return Duplicate;
      }
      orders := orders[order.orderNo := order];
      return Done;
    }

    method MarkOrderPaid(orderNo: string, transactionNo: string, paidAt: int) returns (reply: Reply)
      requires Valid()
      modifies this
      ensures Valid() && (orders, reply) == Step(old(orders), Pay(orderNo, transactionNo, paidAt))
    {
      if orderNo !in orders {
        return NotFound;
      }
      var (updated, ok) := TransitPaid(orders[orderNo], transactionNo, paidAt);
      if !ok {
        return InvalidState;
      }
      orders := orders[orderNo := updated];
      return Done;
    }

    method CloseOrder(orderNo: string, now: int) returns (reply: Reply)
      requires Valid()
      modifies this
      ensures Valid() && (orders, reply) == Step(old(orders), Close(orderNo, now))
    {
      if orderNo !in orders {
        return NotFound;
      }
      var (updated, ok) := TransitClosed(orders[orderNo], now);
      if !ok {
        return InvalidState;
      }
      orders := orders[orderNo := updated];
      return Done;
    }

    /** Both single-key listings: collect in any order of the map, then sort. */
    method List(f: Filter) returns (listing: seq<Order>)
      requires Valid()
      ensures IsListing(orders, f, listing)
    {
      var found: seq<Order> := [];
      var remaining := orders.Keys;
      while remaining != {}
        invariant remaining <= orders.Keys
        invariant forall o :: o in found <==>
          o.orderNo in orders.Keys - remaining && orders[o.orderNo] == o && f.Matches(o)
        invariant DistinctNumbers(found)
        decreases |remaining|
      {
        var k :| k in remaining;
        if f.Matches(orders[k]) {
          found := found + [orders[k]];
        }
        remaining := remaining - {k};
      }
      listing := SortByCreateTimeDesc(found);
    }

    method ListOrdersByActivities(activityNos: seq<string>) returns (result: map<string, seq<Order>>)
      requires Valid()
      ensures forall a :: a in result <==> a in activityNos && a != ""
      ensures forall a :: a in result ==> IsListing(orders, ByActivity(a), result[a])
    {
      result := map[];
      for i := 0 to |activityNos|
        invariant forall a :: a in result <==> a in activityNos[..i] && a != ""
        invariant forall a :: a in result ==> result[a] == []
      {
        if activityNos[i] != "" && activityNos[i] !in result {
          result := result[activityNos[i] := []];
        }
      }
      assert activityNos[..|activityNos|] == activityNos;
      result := Group(result);
      var unsorted := result.Keys;
      while unsorted != {}
        invariant unsorted <= result.Keys
        invariant forall a :: a in result <==> a in activityNos && a != ""
        invariant forall a :: a in result ==> IsGroup(orders, result[a], a, orders.Keys)
        invariant forall a :: a in result && a !in unsorted ==> InOrder(result[a])
        decreases |unsorted|
      {
        var a :| a in unsorted;
        var sorted := SortByCreateTimeDesc(result[a]);
        SortedIsGroup(orders, result[a], sorted, a, orders.Keys);
        result := result[a := sorted];
        unsorted := unsorted - {a};
      }
    }

    /** One pass over all orders, each appended to its group if that group is wanted. */
    method Group(empty: map<string, seq<Order>>) returns (groups: map<string, seq<Order>>)
      requires Valid() && forall a :: a in empty ==> empty[a] == []
      ensures groups.Keys == empty.Keys
      ensures forall a :: a in groups ==> IsGroup(orders, groups[a], a, orders.Keys)
    {
      groups := empty;
      var remaining := orders.Keys;
      while remaining != {}
        invariant remaining <= orders.Keys && groups.Keys == empty.Keys
        invariant forall a :: a in groups ==> IsGroup(orders, groups[a], a, orders.Keys - remaining)
        decreases |remaining|
      {
        var k :| k in remaining;
        ghost var before, seen := groups, orders.Keys - remaining;
        if orders[k].activityNo in groups {
          groups := groups[orders[k].activityNo := groups[orders[k].activityNo] + [orders[k]]];
        }
        assert orders.Keys - (remaining - {k}) == seen + {k};
        hide IsGroup;
        GroupsGrow(orders, before, seen, k);
        remaining := remaining - {k};
      }
    }
  }

  ghost predicate DistinctNumbers(s: seq<Order>) {
    forall i, j :: 0 <= i < j < |s| ==> s[i].orderNo != s[j].orderNo
  }

  /** One group: exactly the orders of activity `a` among the numbers seen so far. */
  ghost predicate IsGroup(m: Orders, group: seq<Order>, a: string, seen: set<string>) {
    && DistinctNumbers(group)
    && forall o :: o in group <==> o.orderNo in seen && o.orderNo in m && m[o.orderNo] == o && o.activityNo == a
  }

  lemma SortedIsGroup(m: Orders, group: seq<Order>, sorted: seq<Order>, a: string, seen: set<string>)
    requires IsGroup(m, group, a, seen) && DistinctNumbers(sorted)
    requires forall o :: o in sorted <==> o in group
    ensures IsGroup(m, sorted, a, seen)
  {
  }

  function Grouped(groups: map<string, seq<Order>>, o: Order): map<string, seq<Order>> {
    if o.activityNo in groups then groups[o.activityNo := groups[o.activityNo] + [o]] else groups
  }

  lemma OneMoreGrouped(m: Orders, group: seq<Order>, a: string, seen: set<string>, k: string)
    requires IsGroup(m, group, a, seen) && k in m && m[k].orderNo == k && k !in seen
    ensures IsGroup(m, if m[k].activityNo == a then group + [m[k]] else group, a, seen + {k})
  {
    assert forall i :: 0 <= i < |group| ==> group[i] in group;
  }

  lemma GroupsGrow(m: Orders, groups: map<string, seq<Order>>, seen: set<string>, k: string)
    requires forall a :: a in groups ==> IsGroup(m, groups[a], a, seen)
    requires k in m && m[k].orderNo == k && k !in seen
    ensures var after := Grouped(groups, m[k]);
            after.Keys == groups.Keys && forall a :: a in after ==> IsGroup(m, after[a], a, seen + {k})
  {
    hide IsGroup;
    forall a | a in groups
      ensures IsGroup(m, Grouped(groups, m[k])[a], a, seen + {k})
    {
      OneMoreGrouped(m, groups[a], a, seen, k);
    }
  }

  method SortByCreateTimeDesc(orders: seq<Order>) returns (sorted: seq<Order>)
    requires DistinctNumbers(orders)
    ensures InOrder(sorted) && DistinctNumbers(sorted)
    ensures forall o :: o in sorted <==> o in orders
  {
    sorted := [];
    for i := 0 to |orders|
      invariant InOrder(sorted)
      invariant forall o :: o in sorted <==> o in orders[..i]
    {
      forall k | 0 <= k < |sorted|
        ensures sorted[k].orderNo != orders[i].orderNo
      {
        assert sorted[k] in orders[..i];
      }
      InsertKeepsOrder(orders[i], sorted);
      sorted := Insert(orders[i], sorted);
      assert orders[..i + 1] == orders[..i] + [orders[i]];
    }
    assert orders[..|orders|] == orders;
    OrderedMeansDistinct(orders, sorted);
  }

  lemma OrderedMeansDistinct(orders: seq<Order>, sorted: seq<Order>)
    requires DistinctNumbers(orders) && InOrder(sorted)
    requires forall o :: o in sorted <==> o in orders
    ensures DistinctNumbers(sorted)
  {
    forall i, j | 0 <= i < j < |sorted|
      ensures sorted[i].orderNo != sorted[j].orderNo
    {
      assert sorted[i] in orders && sorted[j] in orders;
      BeforeIsStrictOrder(sorted[i], sorted[j], sorted[i]);
    }
  }
}
