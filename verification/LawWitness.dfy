/** The laws assumed of JSON, signatures and authenticated encryption can all be met at once, so nothing
    proved from them is empty. The codec below is not JSON: it only shows that claim sets, their numbers
    included, can be written down and read back. */
module LawWitness {
  import opened Wrappers
  import opened Base64Url
  import opened Claims
  import opened Tokens
  import opened IssueAccept
  import Cipher
  import TokenSoundness

  // ---------- A prefix code for claim sets, written in front of `rest` ----------

  ghost function WriteNat(n: nat, rest: Bytes): Bytes {
    if n == 0 then [0] + rest else [1] + WriteNat(n - 1, rest)
  }

  ghost function WriteInt(i: int, rest: Bytes): Bytes {
    if i < 0 then [1] + WriteNat(-i, rest) else [0] + WriteNat(i, rest)
  }

  ghost function WriteText(s: string, rest: Bytes): Bytes {
    if s == "" then [0] + rest else [1] + WriteNat(s[0] as int, WriteText(s[1..], rest))
  }

  ghost function WriteValue(v: Value, rest: Bytes): Bytes
    decreases v, 2, 0
  {
    match v
    case Str(text) => [0] + WriteText(text, rest)
    case Num(mantissa, exponent) => [1] + WriteInt(mantissa, WriteInt(exponent, rest))
    case Bool(flag) => if flag then [2] + rest else [3] + rest
    case Null => [4] + rest
    case Arr(items) => [5] + WriteItems(v, 0, rest)
    case Obj(fields) => [6] + WriteFields(v, fields.Keys, rest)
  }

  ghost function WriteItems(v: Value, from: nat, rest: Bytes): Bytes
    requires v.Arr? && from <= |v.items|
    decreases v, 1, |v.items| - from
  {
    if from == |v.items| then [0] + rest else [1] + WriteValue(v.items[from], WriteItems(v, from + 1, rest))
  }

  ghost function Pick(names: set<string>): (k: string)
    requires names != {}
    ensures k in names
  {
    var k :| k in names;
    k
  }

  ghost function WriteFields(v: Value, names: set<string>, rest: Bytes): Bytes
    requires v.Obj? && names <= v.fields.Keys
    decreases v, 1, |names|
  {
    if names == {} then [0] + rest
    else
      var k := Pick(names);
      [1] + WriteText(k, WriteValue(v.fields[k], WriteFields(v, names - {k}, rest)))
  }

  // ---------- It can be read back ----------

  lemma Cons(m: byte, n: byte, x: Bytes, y: Bytes)
    requires [m] + x == [n] + y
    ensures m == n && x == y
  {
    assert ([m] + x)[0] == m && ([n] + y)[0] == n;
    assert ([m] + x)[1..] == x && ([n] + y)[1..] == y;
  }

  lemma {:induction false} NatUnique(m: nat, n: nat, x: Bytes, y: Bytes)
    requires WriteNat(m, x) == WriteNat(n, y)
    ensures m == n && x == y
  {
    var a, b := if m == 0 then x else WriteNat(m - 1, x), if n == 0 then y else WriteNat(n - 1, y);
    Cons(if m == 0 then 0 else 1, if n == 0 then 0 else 1, a, b);
    if m > 0 { NatUnique(m - 1, n - 1, x, y); }
  }

  lemma IntUnique(m: int, n: int, x: Bytes, y: Bytes)
    requires WriteInt(m, x) == WriteInt(n, y)
    ensures m == n && x == y
  {
    var p, q := if m < 0 then -m else m, if n < 0 then -n else n;
    Cons(if m < 0 then 1 else 0, if n < 0 then 1 else 0, WriteNat(p, x), WriteNat(q, y));
    NatUnique(p, q, x, y);
  }

  lemma {:induction false} TextUnique(s: string, t: string, x: Bytes, y: Bytes)
    requires WriteText(s, x) == WriteText(t, y)
    ensures s == t && x == y
  {
    var a := if s == "" then x else WriteNat(s[0] as int, WriteText(s[1..], x));
    var b := if t == "" then y else WriteNat(t[0] as int, WriteText(t[1..], y));
    Cons(if s == "" then 0 else 1, if t == "" then 0 else 1, a, b);
    if s != "" {
      NatUnique(s[0] as int, t[0] as int, WriteText(s[1..], x), WriteText(t[1..], y));
      TextUnique(s[1..], t[1..], x, y);
      assert s == [s[0]] + s[1..] && t == [t[0]] + t[1..];
    }
  }

  function Kind(v: Value): byte {
    match v
    case Str(_) => 0
    case Num(_, _) => 1
    case Bool(flag) => if flag then 2 else 3
    case Null => 4
    case Arr(_) => 5
    case Obj(_) => 6
  }

  ghost function Body(v: Value, rest: Bytes): Bytes {
    match v
    case Str(text) => WriteText(text, rest)
    case Num(mantissa, exponent) => WriteInt(mantissa, WriteInt(exponent, rest))
    case Bool(_) => rest
    case Null => rest
    case Arr(_) => WriteItems(v, 0, rest)
    case Obj(fields) => WriteFields(v, fields.Keys, rest)
  }

  lemma SameKind(v: Value, w: Value, x: Bytes, y: Bytes)
    requires WriteValue(v, x) == WriteValue(w, y)
    ensures Kind(v) == Kind(w) && Body(v, x) == Body(w, y)
  {
    assert WriteValue(v, x) == [Kind(v)] + Body(v, x);
    assert WriteValue(w, y) == [Kind(w)] + Body(w, y);
    Cons(Kind(v), Kind(w), Body(v, x), Body(w, y));
  }

  lemma {:induction false} ValueUnique(v: Value, w: Value, x: Bytes, y: Bytes)
    requires WriteValue(v, x) == WriteValue(w, y)
    ensures v == w && x == y
    decreases v, 2, 0
  {
    SameKind(v, w, x, y);
    match v
    case Str(text) => TextUnique(text, w.text, x, y);
    case Num(mantissa, exponent) =>
      IntUnique(mantissa, w.mantissa, WriteInt(exponent, x), WriteInt(w.exponent, y));
      IntUnique(exponent, w.exponent, x, y);
    case Bool(_) =>
    case Null =>
    case Arr(items) =>
      ItemsUnique(v, w, 0, x, y);
      assert items == w.items;
    case Obj(fields) => FieldsUnique(v, w, fields.Keys, w.fields.Keys, x, y);
  }

  ghost function Element(v: Value, from: nat, rest: Bytes): Bytes
    requires v.Arr? && from < |v.items|
  {
    WriteValue(v.items[from], WriteItems(v, from + 1, rest))
  }

  /** Both lists end here, or both go on. */
  lemma SameEnd(v: Value, w: Value, from: nat, x: Bytes, y: Bytes)
    requires v.Arr? && w.Arr? && from <= |v.items| && from <= |w.items|
    requires WriteItems(v, from, x) == WriteItems(w, from, y)
    ensures from == |v.items| <==> from == |w.items|
    ensures if from == |v.items| then x == y else Element(v, from, x) == Element(w, from, y)
  {
    var m, n := |v.items|, |w.items|;
    Cons(if from == m then 0 else 1, if from == n then 0 else 1,
         if from == m then x else Element(v, from, x), if from == n then y else Element(w, from, y));
  }

  lemma {:induction false} ItemsUnique(v: Value, w: Value, from: nat, x: Bytes, y: Bytes)
    requires v.Arr? && w.Arr? && from <= |v.items| && from <= |w.items|
    requires WriteItems(v, from, x) == WriteItems(w, from, y)
    ensures |v.items| == |w.items| && x == y && forall i | from <= i < |v.items| :: v.items[i] == w.items[i]
    decreases v, 1, |v.items| - from
  {
    SameEnd(v, w, from, x, y);
    if from < |v.items| {
      ValueUnique(v.items[from], w.items[from], WriteItems(v, from + 1, x), WriteItems(w, from + 1, y));
      ItemsUnique(v, w, from + 1, x, y);
    }
  }

  lemma {:induction false} FieldsUnique(v: Value, w: Value, p: set<string>, q: set<string>, x: Bytes, y: Bytes)
    requires v.Obj? && w.Obj? && p <= v.fields.Keys && q <= w.fields.Keys
    requires WriteFields(v, p, x) == WriteFields(w, q, y)
    ensures p == q && x == y && forall k | k in p :: v.fields[k] == w.fields[k]
    decreases v, 1, |p|
  {
    var a := if p == {} then x else Entry(v, p, Pick(p), x);
    var b := if q == {} then y else Entry(w, q, Pick(q), y);
    Cons(if p == {} then 0 else 1, if q == {} then 0 else 1, a, b);
    if p != {} {
      var k, l := Pick(p), Pick(q);
      TextUnique(k, l, WriteValue(v.fields[k], WriteFields(v, p - {k}, x)), WriteValue(w.fields[l], WriteFields(w, q - {l}, y)));
      ValueUnique(v.fields[k], w.fields[k], WriteFields(v, p - {k}, x), WriteFields(w, q - {k}, y));
      FieldsUnique(v, w, p - {k}, q - {k}, x, y);
      assert p == p - {k} + {k} && q == q - {k} + {k};
    }
  }

  ghost function Entry(v: Value, names: set<string>, k: string, rest: Bytes): Bytes
    requires v.Obj? && names <= v.fields.Keys && k in names
  {
    WriteText(k, WriteValue(v.fields[k], WriteFields(v, names - {k}, rest)))
  }

  ghost function Write(c: Claims): Bytes {
    WriteFields(Obj(c), c.Keys, [])
  }

  ghost function Read(b: Bytes): Option<Claims> {
    if exists c :: Write(c) == b then
      var c :| Write(c) == b;
      Some(c)
    else None
  }

  lemma ReadInvertsWrite(c: Claims)
    ensures Read(Write(c)) == Some(c)
  {
    var d := Read(Write(c)).value;
    FieldsUnique(Obj(c), Obj(d), c.Keys, d.Keys, [], []);
    assert c == d;
  }

  // ---------- All laws at once ----------

  function Tag(): Bytes {
    [0, 0, 0, 0, 0, 0, 0, 0, 0, 0, 0, 0, 0, 0, 0, 0]
  }

  function OpenTagged(c: Bytes): Option<Bytes> {
    if |c| >= 16 && c[|c| - 16..] == Tag() then Some(c[..|c| - 16]) else None
  }

  lemma LawsCanHold() returns (c: Crypto, j: Json, a: Cipher.Aead)
    ensures Laws(c, j) && TokenSoundness.OnlySigned(c) && (forall k :: |c.pub(k)| == 32)
    ensures Cipher.Opens(a) && Cipher.Authenticates(a)
  {
    c := Crypto((kid, m) => [], kid => Tag() + Tag(), (p, m, s) => s == [], (n, e, m, s) => false);
    j := Json(cs => Write(cs), b => Read(b));
    forall cs ensures j.unmarshal(j.marshal(cs)) == Some(cs) { ReadInvertsWrite(cs); }
    a := Cipher.Aead((k, n, p) => p + Tag(), (k, n, b) => OpenTagged(b));
    forall k, n, p ensures a.open(k, n, a.seal(k, n, p)) == Some(p) {
      assert (p + Tag())[|p|..] == Tag() && (p + Tag())[..|p|] == p;
    }
    forall k, n, b | a.open(k, n, b).Some? ensures b == a.seal(k, n, a.open(k, n, b).value) {
      assert b == b[..|b| - 16] + b[|b| - 16..];
    }
  }
}
