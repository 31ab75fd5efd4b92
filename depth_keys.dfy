/** `closestDepthKey`, identical in both versions of `RangeRepository`: the
    keys of a players node are read as numbers, the one nearest to the
    requested depth wins (the first one enumerated on a tie), and it is
    turned back into a key with `String`. */
module DepthKeys {
  import opened Wrappers
  import JsNumber
  import Text
  import opened Json

  /** `keys.map(Number).filter(n => !Number.isNaN(n))` */
  function NumericKeys(keys: seq<string>): (ds: seq<int>)
    ensures |ds| <= |keys|
    ensures forall d :: d in ds <==> exists k :: k in keys && JsNumber.ParseNumberKey(k) == Some(d)
  {
    if keys == [] then []
    else
      var p := JsNumber.ParseNumberKey(keys[0]);
      var rest := NumericKeys(keys[1..]);
      assert forall k :: k in keys <==> k == keys[0] || k in keys[1..];
      (if p.Some? then [p.value] else []) + rest
  }

  /** `Math.abs(d - depth)` */
  function Dist(d: int, depth: int): nat {
    if d >= depth then d - depth else depth - d
  }

  /** Where the `best`/`bestDelta` loop ends: a depth at minimal distance,
      and no earlier depth at that distance. */
  function ClosestIndex(ds: seq<int>, depth: int): (i: nat)
    requires ds != []
    ensures i < |ds|
    ensures forall j :: 0 <= j < |ds| ==> Dist(ds[i], depth) <= Dist(ds[j], depth)
    ensures forall j :: 0 <= j < i ==> Dist(ds[i], depth) < Dist(ds[j], depth)
  {
    if |ds| == 1 then 0
    else
      var i := ClosestIndex(ds[..|ds| - 1], depth);
      if Dist(ds[|ds| - 1], depth) < Dist(ds[i], depth) then |ds| - 1 else i
  }

  /** The two properties above single out one position. */
  lemma ClosestIndexUnique(ds: seq<int>, depth: int, i: nat)
    requires i < |ds|
    requires forall j :: 0 <= j < |ds| ==> Dist(ds[i], depth) <= Dist(ds[j], depth)
    requires forall j :: 0 <= j < i ==> Dist(ds[i], depth) < Dist(ds[j], depth)
    ensures i == ClosestIndex(ds, depth)
  {
  }

  function Closest(ds: seq<int>, depth: int): int
    requires ds != []
  {
    ds[ClosestIndex(ds, depth)]
  }

  /** The specification of `closestDepthKey(node, depth)`; `None` is
      `undefined`. */
  function ClosestDepthKeyOf(node: Json, depth: int): Option<string> {
    var keys := OwnKeys(node);
    if |keys| == 0 then None
    else
      var ds := NumericKeys(keys);
      if |ds| == 0 then None
      else Some(JsNumber.IntToString(Closest(ds, depth)))
  }

  /** No key is chosen exactly when no key reads as a number; otherwise
      the key chosen is `String` of the reading of a key nearest to
      `depth`. */
  lemma ClosestDepthKeyNearest(node: Json, depth: int)
    ensures var r := ClosestDepthKeyOf(node, depth);
      && (r.None? <==> NumericKeys(OwnKeys(node)) == [])
      && (r.Some? ==>
        exists k :: (k in OwnKeys(node) && JsNumber.ParseNumberKey(k).Some?
          && r.value == JsNumber.IntToString(JsNumber.ParseNumberKey(k).value)
          && forall k' :: k' in OwnKeys(node) && JsNumber.ParseNumberKey(k').Some? ==>
               Dist(JsNumber.ParseNumberKey(k).value, depth) <= Dist(JsNumber.ParseNumberKey(k').value, depth)))
  {
    var keys := OwnKeys(node);
    var ds := NumericKeys(keys);
    if ds != [] {
      var b := Closest(ds, depth);
      assert b in ds;
      var k :| k in keys && JsNumber.ParseNumberKey(k) == Some(b);
      assert forall k' :: k' in keys && JsNumber.ParseNumberKey(k').Some? ==>
        JsNumber.ParseNumberKey(k').value in ds;
    }
  }

  /** One more depth: it wins only when strictly nearer. */
  lemma ClosestStep(ds: seq<int>, depth: int, i: nat)
    requires 0 < i < |ds|
    ensures var b := Closest(ds[..i], depth);
      Closest(ds[..i + 1], depth) == if Dist(ds[i], depth) < Dist(b, depth) then ds[i] else b
  {
    assert ds[..i + 1][..i] == ds[..i];
  }

  /** `closestDepthKey` as written, with its `best`/`bestDelta` loop. */
  method ClosestDepthKey(node: Json, depth: int) returns (r: Option<string>)
    ensures r == ClosestDepthKeyOf(node, depth)
  {
    var keys := OwnKeys(node);
    if |keys| == 0 {
      return None;
    }
    var depths := NumericKeys(keys);
    if |depths| == 0 {
      return None;
    }
    var best := depths[0];
    var bestDelta := Dist(best, depth);
    for i := 1 to |depths|
      invariant best == Closest(depths[..i], depth)
      invariant bestDelta == Dist(best, depth)
    {
      var d := depths[i];
      var delta := Dist(d, depth);
      ClosestStep(depths, depth, i);
      if delta < bestDelta {
        best := d;
        bestDelta := delta;
      }
    }
    assert depths[..|depths|] == depths;
    return Some(JsNumber.IntToString(best));
  }

  // ---- ties and the order of enumeration ---------------------------------

  predicate Ascending(ds: seq<int>) {
    forall i, j :: 0 <= i < j < |ds| ==> ds[i] <= ds[j]
  }

  /** When the depths come in ascending order, a tie goes to the smaller
      depth. */
  lemma TieGoesToSmaller(ds: seq<int>, depth: int, j: nat)
    requires ds != [] && Ascending(ds) && j < |ds|
    requires Dist(ds[j], depth) == Dist(Closest(ds, depth), depth)
    ensures Closest(ds, depth) <= ds[j]
  {
  }

  /** An array-index key reads back as its own value. */
  lemma ParseArrayIndex(k: string)
    requires JsNumber.IsArrayIndex(k)
    ensures JsNumber.ParseNumberKey(k) == Some(IndexValue(k))
  {
    var n := IndexValue(k);
    CanonicalIsNatToString(k);
    JsNumber.ParseIntToString(n);
  }

  /** A canonical numeral is the one `String` writes for its value. */
  lemma {:induction false} CanonicalIsNatToString(s: string)
    requires JsNumber.IsCanonicalNat(s)
    ensures JsNumber.NatToString(JsNumber.DecimalValue(s)) == s
    decreases |s|
  {
    var n := JsNumber.DecimalValue(s);
    if |s| == 1 {
      assert s[..0] == [];
    } else {
      var p := s[..|s| - 1];
      assert JsNumber.IsCanonicalNat(p);
      CanonicalIsNatToString(p);
      var pv := JsNumber.DecimalValue(p);
      assert pv > 0 by {
        PositiveLeading(p);
      }
      assert n / 10 == pv && n % 10 == JsNumber.DigitValue(s[|s| - 1]);
      assert s == p + [s[|s| - 1]];
    }
  }

  /** A numeral of two or more digits that starts with a nonzero digit has
      a positive value. */
  lemma {:induction false} PositiveLeading(s: string)
    requires JsNumber.AllDigits(s) && s != [] && s[0] != '0'
    ensures JsNumber.DecimalValue(s) > 0
    decreases |s|
  {
    if |s| > 1 {
      PositiveLeading(s[..|s| - 1]);
    }
  }

  /** The numeric reading of sorted array-index keys is ascending. */
  lemma {:induction false} SortedIndicesAscending(ks: seq<string>)
    requires AllIndices(ks) && SortedByIndex(ks)
    ensures |NumericKeys(ks)| == |ks|
    ensures forall i :: 0 <= i < |ks| ==> NumericKeys(ks)[i] == IndexValue(ks[i])
    ensures Ascending(NumericKeys(ks))
  {
    if ks != [] {
      ParseArrayIndex(ks[0]);
      SortedIndicesAscending(ks[1..]);
      var ds := NumericKeys(ks);
      assert ds == [IndexValue(ks[0])] + NumericKeys(ks[1..]);
    }
  }

  lemma OtherKeysOfIndices(ks: seq<string>)
    requires forall k :: k in ks ==> JsNumber.IsArrayIndex(k)
    ensures OtherKeysIn(ks) == []
  {
  }

  /** The key chosen is `String` of the closest depth. */
  lemma ClosestDepthKeyValue(node: Json, depth: int)
    ensures var ds := NumericKeys(OwnKeys(node));
      ClosestDepthKeyOf(node, depth)
        == if ds == [] then None else Some(JsNumber.IntToString(Closest(ds, depth)))
  {
  }

  /** An object whose keys all look like array indices enumerates them
      sorted by value. */
  lemma IndexObjectKeys(fields: seq<(string, Json)>)
    requires forall i :: 0 <= i < |fields| ==> JsNumber.IsArrayIndex(fields[i].0)
    ensures AllIndices(OwnKeys(JObj(fields))) && SortedByIndex(OwnKeys(JObj(fields)))
  {
    var ks := Dedup(FieldKeys(fields));
    assert forall x :: x in ks ==> JsNumber.IsArrayIndex(x) by {
      forall x | x in ks ensures JsNumber.IsArrayIndex(x) {
        var i :| 0 <= i < |fields| && fields[i].0 == x;
      }
    }
    OtherKeysOfIndices(ks);
    var idx := IndexKeysIn(ks);
    assert AllIndices(idx) by {
      forall i | 0 <= i < |idx| ensures JsNumber.IsArrayIndex(idx[i]) {
        assert idx[i] in idx;
      }
    }
    assert OwnKeys(JObj(fields)) == SortByIndex(idx) + [];
    assert SortByIndex(idx) + [] == SortByIndex(idx);
  }

  /** With only integer-looking keys, `Object.keys` enumerates them in
      ascending order, so a tie between two depths goes to the smaller. */
  lemma IndexKeysTieGoesToSmaller(fields: seq<(string, Json)>, depth: int, d: int)
    requires forall i :: 0 <= i < |fields| ==> JsNumber.IsArrayIndex(fields[i].0)
    requires d in NumericKeys(OwnKeys(JObj(fields)))
    ensures var ds := NumericKeys(OwnKeys(JObj(fields)));
      Dist(d, depth) == Dist(Closest(ds, depth), depth) ==> Closest(ds, depth) <= d
  {
    var keys := OwnKeys(JObj(fields));
    IndexObjectKeys(fields);
    SortedIndicesAscending(keys);
    var ds := NumericKeys(keys);
    var j :| 0 <= j < |ds| && ds[j] == d;
    if Dist(d, depth) == Dist(Closest(ds, depth), depth) {
      TieGoesToSmaller(ds, depth, j);
    }
  }

  /** A tie goes to the depth enumerated first: 6 and 10 are both 2 away
      from 8. The nearest depth wins otherwise, so 9 picks 10 among 5, 10
      and 15. */
  lemma ClosestExamples()
    ensures Closest([6, 10], 8) == 6
    ensures Closest([10, 6], 8) == 10
    ensures Closest([5, 10, 15], 9) == 10
    ensures Closest([5, 10, 15], 7) == 5
  {
    assert [6, 10][..1] == [6];
    assert [10, 6][..1] == [10];
    assert [5, 10, 15][..2] == [5, 10];
    assert [5, 10][..1] == [5];
  }

  // ---- a stored key that `String` does not write back --------------------

  /** An unsigned, trimmed key: its leading digits, then a zero fraction. */
  lemma ParseUnsigned(k: string, digits: string)
    requires Text.Trim(k) == k && k != [] && JsNumber.IsDigit(k[0])
    requires JsNumber.LeadingDigits(k) == digits && digits != []
    requires JsNumber.IsZeroFraction(k[|digits|..])
    ensures JsNumber.ParseNumberKey(k) == Some(JsNumber.DecimalValue(digits))
  {
  }

  lemma LeadingDigitsOfTenPointZero()
    ensures JsNumber.LeadingDigits("10.0") == "10"
  {
    assert JsNumber.LeadingDigits(".0") == [];
    assert "10.0"[1..] == "0.0";
    assert "0.0"[1..] == ".0";
  }

  lemma TrimTenPointZero()
    ensures Text.Trim("10.0") == "10.0"
  {
    assert Text.IsTrimmed("10.0");
    Text.TrimOfTrimmed("10.0");
  }

  lemma FractionOfTenPointZero()
    ensures JsNumber.IsZeroFraction("10.0"[2..])
  {
    assert "10.0"[2..] == ".0";
  }

  lemma ValueOfTen()
    ensures JsNumber.DecimalValue("10") == 10
  {
    assert "10"[..1] == "1" && "1"[..0] == [];
  }

  /** `Number("10.0")` is 10. */
  lemma ReadTenPointZero()
    ensures JsNumber.ParseNumberKey("10.0") == Some(10)
  {
    LeadingDigitsOfTenPointZero();
    TrimTenPointZero();
    FractionOfTenPointZero();
    ValueOfTen();
    ParseUnsigned("10.0", "10");
  }

  lemma KeysOfTenPointZero(seat: Json)
    ensures OwnKeys(JObj([("10.0", seat)])) == ["10.0"]
  {
    assert !JsNumber.IsArrayIndex("10.0") by {
      assert "10.0"[2] == '.';
    }
    assert FieldKeys([("10.0", seat)]) == ["10.0"];
    assert Dedup(["10.0"]) == ["10.0"] by {
      assert ["10.0"][..0] == [];
    }
    assert IndexKeysIn(["10.0"]) == [];
    assert OtherKeysIn(["10.0"]) == ["10.0"];
  }

  lemma NumericTenPointZero()
    ensures NumericKeys(["10.0"]) == [10]
  {
    ReadTenPointZero();
  }

  /** A node whose only depth key is "10.0" yields the key "10", whatever
      depth is asked for. */
  lemma TenPointZeroBecomesTen(seat: Json, depth: int)
    ensures ClosestDepthKeyOf(JObj([("10.0", seat)]), depth) == Some("10")
  {
    KeysOfTenPointZero(seat);
    NumericTenPointZero();
    OneNumericKey(JObj([("10.0", seat)]), depth, 10);
    TenToString();
  }

  lemma ValueOfTwelve()
    ensures JsNumber.DecimalValue("12") == 12
  {
    assert "12"[..1] == "1" && "1"[..0] == [];
  }

  /** `Number("12")` is 12, and "12" is an array index. */
  lemma ReadTwelve()
    ensures JsNumber.ParseNumberKey("12") == Some(12)
    ensures JsNumber.IsArrayIndex("12")
  {
    assert JsNumber.AllDigits("12");
    JsNumber.ParseDigits("12");
    TwelveIsIndex();
  }

  lemma TwelveIsIndex()
    ensures JsNumber.IsArrayIndex("12")
  {
    assert JsNumber.AllDigits("12");
    ValueOfTwelve();
  }

  /** `Number(".0")` is 0. */
  lemma ReadPointZero()
    ensures JsNumber.ParseNumberKey(".0") == Some(0)
    ensures !JsNumber.IsArrayIndex(".0")
  {
    JsNumber.ParseFractionOnly("0");
    assert "." + "0" == ".0";
    PointZeroIsNoIndex();
  }

  lemma KeysOfTwelveAndPointZero(y: Json, z: Json)
    ensures OwnKeys(JObj([("12", y), (".0", z)])) == ["12", ".0"]
  {
    assert FieldKeys([("12", y), (".0", z)]) == ["12", ".0"];
    DedupTwelveAndPointZero();
    KeyOrderTwelveAndPointZero();
  }

  lemma KeyOrderTwelveAndPointZero()
    ensures JsKeyOrder(["12", ".0"]) == ["12", ".0"]
  {
    TwelveIsIndex();
    PointZeroIsNoIndex();
    KeyOrderOfPair("12", ".0");
  }

  lemma DedupTwelveAndPointZero()
    ensures Dedup(["12", ".0"]) == ["12", ".0"]
  {
    var ks := ["12", ".0"];
    assert ks[..1] == ["12"] && ["12"][..0] == [];
    assert Dedup(["12"]) == ["12"];
    assert ".0" != "12" by { assert ".0"[0] != "12"[0]; }
  }

  lemma IndexKeysOfPair(a: string, b: string)
    requires JsNumber.IsArrayIndex(a) && !JsNumber.IsArrayIndex(b)
    ensures IndexKeysIn([a, b]) == [a] && OtherKeysIn([a, b]) == [b]
  {
    assert [a, b][0] == a && [a, b][1..] == [b];
    assert [b][0] == b && [b][1..] == [];
    assert IndexKeysIn([b]) == [] + IndexKeysIn([]);
    assert OtherKeysIn([b]) == [b] + OtherKeysIn([]);
  }

  /** An index key followed by another key: `Object.keys` keeps that order. */
  lemma KeyOrderOfPair(a: string, b: string)
    requires JsNumber.IsArrayIndex(a) && !JsNumber.IsArrayIndex(b)
    ensures JsKeyOrder([a, b]) == [a, b]
  {
    IndexKeysOfPair(a, b);
    assert [a][1..] == [];
    assert SortByIndex([a]) == InsertByIndex(a, []);
  }

  lemma PointZeroIsNoIndex()
    ensures !JsNumber.IsArrayIndex(".0")
  {
    assert !JsNumber.IsDigit(".0"[0]);
  }

  lemma NumericTwelveAndPointZero()
    ensures NumericKeys(["12", ".0"]) == [12, 0]
  {
    ReadTwelve();
    ReadPointZero();
    NumericPair("12", ".0", 12, 0);
  }

  /** Two keys read as numbers give those numbers, in order. */
  lemma NumericPair(a: string, b: string, x: int, y: int)
    requires JsNumber.ParseNumberKey(a) == Some(x) && JsNumber.ParseNumberKey(b) == Some(y)
    ensures NumericKeys([a, b]) == [x, y]
  {
    var ks := [a, b];
    assert ks[0] == a && ks[1..] == [b];
    assert [b][0] == b && [b][1..] == [];
    assert NumericKeys([b]) == [y];
  }

  /** At depth 5, 0 is nearer than 12. */
  lemma ZeroIsNearerThanTwelve()
    ensures Closest([12, 0], 5) == 0
  {
    assert [12, 0][..1] == [12];
    assert ClosestIndex([12], 5) == 0;
  }

  lemma NoZeroKey(y: Json, z: Json)
    ensures Prop(JObj([("12", y), (".0", z)]), "0").None?
  {
    var f := [("12", y), (".0", z)];
    assert "0" != ".0" by { assert |"0"| != |".0"|; }
    assert "0" != "12" by { assert |"0"| != |"12"|; }
    assert f[..1] == [("12", y)] && f[..1][..0] == [];
    assert LastValue(f[..1][..0], "0").None?;
    assert LastValue(f[..1], "0").None?;
    assert LastValue(f, "0").None?;
  }

  /** Keys "12" and ".0" at depth 5: ".0" reads as 0, which is nearer, and
      it comes back as the key "0", which the node does not have. */
  lemma PointZeroKeyIsNearest(y: Json, z: Json)
    ensures ClosestDepthKeyOf(JObj([("12", y), (".0", z)]), 5) == Some("0")
    ensures Prop(JObj([("12", y), (".0", z)]), "0").None?
  {
    KeysOfTwelveAndPointZero(y, z);
    NumericTwelveAndPointZero();
    ZeroIsNearerThanTwelve();
    assert JsNumber.IntToString(0) == "0";
    NoZeroKey(y, z);
  }

  /** With a single key that reads as a number, that number is chosen. */
  lemma OneNumericKey(node: Json, depth: int, d: int)
    requires OwnKeys(node) != [] && NumericKeys(OwnKeys(node)) == [d]
    ensures ClosestDepthKeyOf(node, depth) == Some(JsNumber.IntToString(d))
  {
    assert Closest([d], depth) == d;
  }

  lemma TenToString()
    ensures JsNumber.IntToString(10) == "10"
  {
  }
}
