/** JSON values as the policy evaluator compares them. */
module JsonValue {
  import opened Text
  import opened DecimalNumber

  datatype Json =
    | Null
    | Bool(b: bool)
    | Number(n: JsonNumber)
    | Text(s: string)
    | Array(items: seq<Json>)
    | Object(fields: map<string, Json>)

  /** Every number in the tree is spelled as section 6 of RFC 8259 asks. */
  predicate WellFormed(j: Json) {
    match j
    case Number(n) => n.Valid()
    case Array(items) => forall i :: 0 <= i < |items| ==> WellFormed(items[i])
    case Object(fields) => forall k :: k in fields ==> WellFormed(fields[k])
    case _ => true
  }

  /** What a JSON text denotes: numbers lose their spelling, nothing else changes. */
  datatype Meaning =
    | MNull
    | MBool(b: bool)
    | MNumber(x: real)
    | MText(s: string)
    | MArray(items: seq<Meaning>)
    | MObject(fields: map<string, Meaning>)

  ghost function Denote(j: Json): Meaning
    requires WellFormed(j)
  {
    match j
    case Null => MNull
    case Bool(b) => MBool(b)
    case Number(n) => MNumber(n.Value())
    case Text(s) => MText(s)
    case Array(items) => MArray(seq(|items|, i requires 0 <= i < |items| => Denote(items[i])))
    case Object(fields) => MObject(map k | k in fields :: Denote(fields[k]))
  }

  /** Two JSON trees are equal exactly when they denote the same value. */
  method EqualJsonValue(left: Json, right: Json) returns (equal: bool)
    requires WellFormed(left) && WellFormed(right)
    ensures equal <==> Denote(left) == Denote(right)
    decreases left, 1
  {
    hide JsonNumber.Value, JsonNumber.Print, JsonNumber.Valid, Parseable;
    match left
    case Number(l) =>
      if !right.Number? {
        return false;
      }
      var comparison := CompareNumberStrings(l.Print(), right.n.Print());
      assert comparison == Ok(Compared(l.Value(), right.n.Value()));
      return comparison == Ok(0);
    case Array(l) =>
      if !right.Array? {
        return false;
      }
      equal := EqualArrays(left, right);
    case Object(l) =>
      if !right.Object? {
        return false;
      }
      equal := EqualObjects(left, right);
    case Text(l) => return right.Text? && l == right.s;
    case Bool(l) => return right.Bool? && l == right.b;
    case Null => return right.Null?;
  }

  method EqualArrays(left: Json, right: Json) returns (equal: bool)
    requires left.Array? && right.Array? && WellFormed(left) && WellFormed(right)
    ensures equal <==> Denote(left) == Denote(right)
    decreases left, 0
  {
    var l, r := left.items, right.items;
    if |l| != |r| {
      return false;
    }
    var i := 0;
    while i < |l|
      invariant 0 <= i <= |l|
      invariant forall k :: 0 <= k < i ==> Denote(l[k]) == Denote(r[k])
    {
      var same := EqualJsonValue(l[i], r[i]);
      if !same {
        assert Denote(left).items[i] != Denote(right).items[i];
        return false;
      }
      i := i + 1;
    }
    return true;
  }

  method EqualObjects(left: Json, right: Json) returns (equal: bool)
    requires left.Object? && right.Object? && WellFormed(left) && WellFormed(right)
    ensures equal <==> Denote(left) == Denote(right)
    decreases left, 0
  {
    var l, r := left.fields, right.fields;
    assert Denote(left).fields.Keys == l.Keys && Denote(right).fields.Keys == r.Keys;
    if |l| != |r| {
      assert |l.Keys| != |r.Keys|;
      return false;
    }
    var pending := l.Keys;
    while pending != {}
      invariant pending <= l.Keys
      invariant forall k :: k in l.Keys - pending ==> k in r && Denote(l[k]) == Denote(r[k])
      decreases pending
    {
      var key :| key in pending;
      if key !in r {
        return false;
      }
      var same := EqualJsonValue(l[key], r[key]);
      if !same {
        assert Denote(left).fields[key] != Denote(right).fields[key];
        return false;
      }
      pending := pending - {key};
    }
    assert |l.Keys| == |r.Keys|;
    SubsetOfSameSize(l.Keys, r.Keys);
    return true;
  }

  lemma {:induction false} SubsetOfSameSize<T>(a: set<T>, b: set<T>)
    requires a <= b && |a| == |b|
    ensures a == b
  {
    assert |b - a| == |b| - |a|;
  }
}
