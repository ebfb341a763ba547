/** The string keys of the in-memory activity store, and what its prefix and substring
    tests match. */
module KeyStrings {
  function SkuKey(activityNo: string, skuNo: string): string {
    activityNo + ":" + skuNo
  }

  function UserPurchaseKey(userID: int, activityNo: string, skuNo: string): string {
    Decimal(userID) + ":" + activityNo + ":" + skuNo
  }

  predicate ColonFree(s: string) {
    ':' !in s
  }

  predicate HasPrefix(s: string, prefix: string) {
    prefix <= s
  }

  predicate Contains(s: string, part: string) {
    part <= s || (s != "" && Contains(s[1..], part))
  }

  // ---------------------------------------------------------------------------
  // Decimal numerals
  // ---------------------------------------------------------------------------

  const DIGITS := "0123456789"

  function Numeral(n: nat): (s: string)
    ensures s != "" && forall i :: 0 <= i < |s| ==> s[i] in DIGITS
  {
    if n < 10 then [DIGITS[n]] else Numeral(n / 10) + [DIGITS[n % 10]]
  }

  function Decimal(n: int): string {
    if n < 0 then "-" + Numeral(-n) else Numeral(n)
  }

  lemma {:induction false} NumeralInjective(m: nat, n: nat)
    requires Numeral(m) == Numeral(n)
    ensures m == n
  {
    var s, t := Numeral(m), Numeral(n);
    assert s[|s| - 1] == DIGITS[m % 10] && t[|t| - 1] == DIGITS[n % 10];
    assert m % 10 == n % 10;
    assert (|s| >= 2 <==> m >= 10) && (|t| >= 2 <==> n >= 10);
    if m >= 10 {
      assert s[..|s| - 1] == Numeral(m / 10);
      assert t[..|t| - 1] == Numeral(n / 10);
      NumeralInjective(m / 10, n / 10);
    }
  }

  lemma DecimalInjective(m: int, n: int)
    requires Decimal(m) == Decimal(n)
    ensures m == n
  {
    assert Numeral(if m < 0 then -m else m)[0] in DIGITS && Numeral(if n < 0 then -n else n)[0] in DIGITS;
    assert '-' !in DIGITS;
    if m < 0 {
      assert Decimal(m)[0] == '-';
      assert n < 0;
      assert Decimal(m)[1..] == Numeral(-m) && Decimal(n)[1..] == Numeral(-n);
      NumeralInjective(-m, -n);
    } else {
      assert n >= 0;
      NumeralInjective(m, n);
    }
  }

  lemma DecimalIsColonFree(n: int)
    ensures ColonFree(Decimal(n))
  {
    assert ':' !in DIGITS && ':' != '-';
  }

  // ---------------------------------------------------------------------------
  // Keys determine what they were built from
  // ---------------------------------------------------------------------------

  /** Split at the first colon: the part before it must be colon-free, the rest need not. */
  lemma {:induction false} FirstColonSplits(a: string, s: string, b: string, t: string)
    requires ColonFree(a) && ColonFree(b)
    requires a + ":" + s == b + ":" + t
    ensures a == b && s == t
  {
    UpToColonOf(a, s);
    UpToColonOf(b, t);
    var x := a + ":" + s;
    assert s == x[|a| + 1..] && t == x[|b| + 1..];
  }

  /** Everything before the first colon. */
  function UpToColon(s: string): string {
    if s == "" || s[0] == ':' then "" else [s[0]] + UpToColon(s[1..])
  }

  lemma {:induction false} UpToColonOf(a: string, s: string)
    requires ColonFree(a)
    ensures UpToColon(a + ":" + s) == a
  {
    if a == "" {
      assert (a + ":" + s)[0] == ':';
    } else {
      assert (a + ":" + s)[1..] == a[1..] + ":" + s;
      UpToColonOf(a[1..], s);
    }
  }

  lemma SkuKeyInjective(a: string, s: string, b: string, t: string)
    requires ColonFree(a) && ColonFree(b) && SkuKey(a, s) == SkuKey(b, t)
    ensures a == b && s == t
  {
    FirstColonSplits(a, s, b, t);
  }

  /** A purchase key is the user's numeral in front of a stock key. */
  function PurchaseKey(userID: int, skuKey: string): string {
    Decimal(userID) + ":" + skuKey
  }

  lemma Regroup(d: string, a: string, s: string)
    ensures d + ":" + a + ":" + s == d + ":" + (a + ":" + s)
  {
  }

  lemma UserPurchaseKeyIsPurchaseKey(userID: int, a: string, s: string)
    ensures UserPurchaseKey(userID, a, s) == PurchaseKey(userID, SkuKey(a, s))
  {
    hide Decimal;
    Regroup(Decimal(userID), a, s);
  }

  lemma PurchaseKeyInjective(u: int, j: string, v: int, k: string)
    requires PurchaseKey(u, j) == PurchaseKey(v, k)
    ensures u == v && j == k
  {
    DecimalIsColonFree(u);
    DecimalIsColonFree(v);
    FirstColonSplits(Decimal(u), j, Decimal(v), k);
    DecimalInjective(u, v);
  }

  lemma UserPurchaseKeyInjective(u: int, a: string, s: string, v: int, b: string, t: string)
    requires ColonFree(a) && ColonFree(b) && UserPurchaseKey(u, a, s) == UserPurchaseKey(v, b, t)
    ensures u == v && a == b && s == t
  {
    UserPurchaseKeyIsPurchaseKey(u, a, s);
    UserPurchaseKeyIsPurchaseKey(v, b, t);
    PurchaseKeyInjective(u, SkuKey(a, s), v, SkuKey(b, t));
    SkuKeyInjective(a, s, b, t);
  }

  // ---------------------------------------------------------------------------
  // What the cleanup tests match
  // ---------------------------------------------------------------------------

  /** The prefix test matches exactly the stock keys of the given activity. */
  lemma {:induction false} PrefixMatchesActivity(activityNo: string, a: string, s: string)
    requires ColonFree(activityNo) && ColonFree(a)
    ensures HasPrefix(SkuKey(a, s), activityNo + ":") <==> a == activityNo
  {
    var x, p := SkuKey(a, s), activityNo + ":";
    if p <= x {
      assert x == activityNo + ":" + x[|p|..];
      FirstColonSplits(a, s, activityNo, x[|p|..]);
    }
    if a == activityNo {
      assert x == p + s;
    }
  }

  lemma {:induction false} ContainsAt(s: string, part: string, i: nat)
    requires i + |part| <= |s| && s[i..i + |part|] == part
    ensures Contains(s, part)
  {
    if i == 0 {
      assert part <= s;
    } else {
      assert s[1..][i - 1..i - 1 + |part|] == part;
      ContainsAt(s[1..], part, i - 1);
    }
  }

  lemma {:induction false} ContainedWhere(s: string, part: string) returns (i: nat)
    requires Contains(s, part)
    ensures i + |part| <= |s| && s[i..i + |part|] == part
  {
    if part <= s {
      i := 0;
    } else {
      i := ContainedWhere(s[1..], part);
      assert s[1..][i..i + |part|] == s[i + 1..i + 1 + |part|];
      i := i + 1;
    }
  }

  /** The substring test matches exactly the purchase keys of the given activity. */
  lemma {:induction false} SubstringMatchesActivity(activityNo: string, u: int, a: string, s: string)
    requires ColonFree(activityNo) && ColonFree(a) && ColonFree(s)
    ensures Contains(UserPurchaseKey(u, a, s), ":" + activityNo + ":") <==> a == activityNo
  {
    var d := Decimal(u);
    var x, p := UserPurchaseKey(u, a, s), ":" + activityNo + ":";
    DecimalIsColonFree(u);
    if a == activityNo {
      assert x[|d|..|d| + |p|] == p;
      ContainsAt(x, p, |d|);
    }
    if Contains(x, p) {
      var i := ContainedWhere(x, p);
      ColonsOfKey(d, a, s, i);
      ColonsOfKey(d, a, s, i + |p| - 1);
      assert x[i] == p[0] && x[i + |p| - 1] == p[|p| - 1];
      assert i == |d| && i + |p| - 1 == |d| + 1 + |a|;
      assert x[|d| + 1..|d| + 1 + |a|] == a;
      assert p[1..1 + |activityNo|] == activityNo;
    }
  }

  /** A purchase key of colon-free parts has exactly two colons. */
  lemma ColonsOfKey(d: string, a: string, s: string, i: nat)
    requires ColonFree(d) && ColonFree(a) && ColonFree(s)
    requires i < |d + ":" + a + ":" + s|
    ensures (d + ":" + a + ":" + s)[i] == ':' <==> i == |d| || i == |d| + 1 + |a|
  {
  }

  // ---------------------------------------------------------------------------
  // Identifiers with colons
  // ---------------------------------------------------------------------------

  /** One number is the other, or the other continued after a colon. */
  predicate Nested(a: string, b: string) {
    a == b || a + ":" <= b || b + ":" <= a
  }

  /** Two keys that begin alike up to a colon each. */
  lemma CommonStart(a: string, s: string, b: string, t: string)
    requires SkuKey(a, s) == SkuKey(b, t) && |a| <= |b|
    ensures a == b || a + ":" <= b
  {
    var x := SkuKey(a, s);
    assert x[..|a|] == a && x[|a|] == ':' && x[..|b|] == b;
    if |a| < |b| {
      assert b[..|a| + 1] == a + ":";
    }
  }

  lemma NestedKeysMeet(a: string, b: string) returns (s: string, t: string)
    requires Nested(a, b)
    ensures SkuKey(a, s) == SkuKey(b, t)
  {
    if a + ":" <= b {
      s, t := b[|a| + 1..] + ":", "";
      assert b == a + ":" + b[|a| + 1..];
    } else if b + ":" <= a {
      s, t := "", a[|b| + 1..] + ":";
      assert a == b + ":" + a[|b| + 1..];
    } else {
      s, t := "", "";
    }
  }

  /** Two activities have products with the same stock key exactly if one number is the
      other, or the other continued after a colon. */
  lemma SkuKeysCollideIff(a: string, b: string)
    ensures (exists s, t :: SkuKey(a, s) == SkuKey(b, t)) <==> Nested(a, b)
  {
    if s, t :| SkuKey(a, s) == SkuKey(b, t) {
      if |a| <= |b| {
        CommonStart(a, s, b, t);
      } else {
        CommonStart(b, t, a, s);
      }
    }
    if Nested(a, b) {
      var s, t := NestedKeysMeet(a, b);
    }
  }

  /** Purchase keys collide exactly where stock keys do, and only for one user. */
  lemma UserPurchaseKeysCollideIff(u: int, a: string, v: int, b: string)
    ensures (exists s, t :: UserPurchaseKey(u, a, s) == UserPurchaseKey(v, b, t)) <==> u == v && Nested(a, b)
  {
    if s, t :| UserPurchaseKey(u, a, s) == UserPurchaseKey(v, b, t) {
      UserPurchaseKeyIsPurchaseKey(u, a, s);
      UserPurchaseKeyIsPurchaseKey(v, b, t);
      PurchaseKeyInjective(u, SkuKey(a, s), v, SkuKey(b, t));
      SkuKeysCollideIff(a, b);
    }
    if u == v && Nested(a, b) {
      var s, t := NestedKeysMeet(a, b);
      UserPurchaseKeyIsPurchaseKey(u, a, s);
      UserPurchaseKeyIsPurchaseKey(v, b, t);
    }
  }

  /** The prefix test on any stock key: it matches the activity's own keys, those of
      activities whose number continues this one after a colon, and those of a shorter
      activity whose product number supplies the rest. */
  lemma {:induction false} PrefixMatchesIff(activityNo: string, a: string, s: string)
    ensures HasPrefix(SkuKey(a, s), activityNo + ":") <==>
      a == activityNo || activityNo + ":" <= a || (a + ":" <= activityNo && activityNo[|a| + 1..] + ":" <= s)
  {
    var x, p := SkuKey(a, s), activityNo + ":";
    if p <= x {
      assert x == SkuKey(activityNo, x[|p|..]);
      if |activityNo| <= |a| {
        CommonStart(activityNo, x[|p|..], a, s);
      } else {
        CommonStart(a, s, activityNo, x[|p|..]);
        assert s == x[|a| + 1..];
        assert activityNo[|a| + 1..] + ":" == x[|a| + 1..][..|p| - |a| - 1];
      }
    }
    if a == activityNo {
      assert x == p + s;
    } else if p <= a {
      assert x[..|p|] == a[..|p|];
    } else if a + ":" <= activityNo && activityNo[|a| + 1..] + ":" <= s {
      var rest := activityNo[|a| + 1..];
      assert p == a + ":" + (rest + ":");
      assert x[..|p|] == a + ":" + s[..|rest| + 1];
    }
  }

  /** Some product of activity `a` is cleaned up with the given activity exactly if the
      numbers are nested. */
  lemma PrefixReachesIff(activityNo: string, a: string)
    ensures (exists s :: HasPrefix(SkuKey(a, s), activityNo + ":")) <==> Nested(a, activityNo)
  {
    if s :| HasPrefix(SkuKey(a, s), activityNo + ":") {
      PrefixMatchesIff(activityNo, a, s);
    }
    if Nested(a, activityNo) {
      var s := if a + ":" <= activityNo then activityNo[|a| + 1..] + ":" else "";
      PrefixMatchesIff(activityNo, a, s);
      assert HasPrefix(SkuKey(a, s), activityNo + ":");
    }
  }

  lemma {:induction false} ContainsBehindColonFree(d: string, y: string, part: string)
    requires ColonFree(d) && part != "" && part[0] == ':'
    ensures Contains(d + y, part) <==> Contains(y, part)
  {
    if d == "" {
      assert d + y == y;
    } else {
      assert (d + y)[0] == d[0] && (d + y)[1..] == d[1..] + y;
      ContainsBehindColonFree(d[1..], y, part);
    }
  }

  lemma ContainsBeforeColonFree(y: string, s: string, part: string)
    requires ColonFree(s) && part != "" && part[|part| - 1] == ':'
    ensures Contains(y + s, part) <==> Contains(y, part)
  {
    if Contains(y + s, part) {
      var i := ContainedWhere(y + s, part);
      assert (y + s)[i + |part| - 1] == (y + s)[i..i + |part|][|part| - 1] == ':';
      assert y[i..i + |part|] == (y + s)[i..i + |part|];
      ContainsAt(y, part, i);
    }
    if Contains(y, part) {
      var i := ContainedWhere(y, part);
      assert y[i..i + |part|] == (y + s)[i..i + |part|];
      ContainsAt(y + s, part, i);
    }
  }

  /** The substring test on any purchase key looks only behind the user; for products
      without a colon it matches exactly where the activity's number, between colons, occurs
      in the other activity's number between colons. */
  lemma SubstringMatchesIff(activityNo: string, u: int, a: string, s: string)
    ensures Contains(UserPurchaseKey(u, a, s), ":" + activityNo + ":") <==>
      Contains(":" + a + ":" + s, ":" + activityNo + ":")
    ensures ColonFree(s) ==>
      (Contains(UserPurchaseKey(u, a, s), ":" + activityNo + ":") <==> Contains(":" + a + ":", ":" + activityNo + ":"))
  {
    var p := ":" + activityNo + ":";
    DecimalIsColonFree(u);
    assert UserPurchaseKey(u, a, s) == Decimal(u) + (":" + a + ":" + s);
    ContainsBehindColonFree(Decimal(u), ":" + a + ":" + s, p);
    if ColonFree(s) {
      ContainsBeforeColonFree(":" + a + ":", s, p);
    }
  }

  /** The smallest instances: one key for two activities, and both tests matching an
      activity they were not asked for. */
  lemma ColonsConfuseActivities()
    ensures SkuKey("1:2", "3") == SkuKey("1", "2:3")
    ensures HasPrefix(SkuKey("1:2", "3"), "1" + ":")
    ensures Contains(UserPurchaseKey(7, "9", "1:3"), ":" + "1" + ":")
  {
    assert Decimal(7) == "7";
    assert UserPurchaseKey(7, "9", "1:3")[3..6] == ":" + "1" + ":";
    ContainsAt(UserPurchaseKey(7, "9", "1:3"), ":" + "1" + ":", 3);
  }
}
