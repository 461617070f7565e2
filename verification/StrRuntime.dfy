/** runtime/cythonpp/str.h: Python's str held as UTF-8 bytes. Code points are
    Unicode scalar values, encoded as in section 3 of RFC 3629. */
module StrRuntime {
  type Scalar = c: int | 0 <= c < 0xD800 || 0xE000 <= c <= 0x10FFFF
  type Byte = b: int | 0 <= b < 0x100

  function EncodeOne(c: Scalar): (bytes: seq<Byte>)
    ensures 1 <= |bytes| <= 4
    ensures !IsContinuation(bytes[0])
    ensures forall k :: 1 <= k < |bytes| ==> IsContinuation(bytes[k])
  {
    if c < 0x80 then [c]
    else if c < 0x800 then [0xC0 + c / 0x40, 0x80 + c % 0x40]
    else if c < 0x1_0000 then [0xE0 + c / 0x1000, 0x80 + c / 0x40 % 0x40, 0x80 + c % 0x40]
    else [0xF0 + c / 0x4_0000, 0x80 + c / 0x1000 % 0x40, 0x80 + c / 0x40 % 0x40, 0x80 + c % 0x40]
  }

  function Encode(text: seq<Scalar>): seq<Byte> {
    if text == [] then [] else EncodeOne(text[0]) + Encode(text[1..])
  }

  /** A byte of the form 10xxxxxx, the test `(byte & 0xC0) == 0x80`. */
  predicate IsContinuation(b: Byte) {
    0x80 <= b < 0xC0
  }

  lemma MaskFindsContinuations(b: bv8)
    ensures (b & 0xC0) == 0x80 <==> 0x80 <= b < 0xC0
  {
  }

  /** The order of std::string and of Python's str, over bytes and code points alike. */
  predicate LexLess(a: seq<int>, b: seq<int>) {
    if b == [] then false
    else if a == [] then true
    else a[0] < b[0] || (a[0] == b[0] && LexLess(a[1..], b[1..]))
  }

  lemma {:induction false} LexLessSkipsCommonPrefix(p: seq<int>, a: seq<int>, b: seq<int>)
    ensures LexLess(p + a, p + b) == LexLess(a, b)
  {
    if p == [] {
      assert p + a == a && p + b == b;
    } else {
      assert (p + a)[1..] == p[1..] + a && (p + b)[1..] == p[1..] + b;
      LexLessSkipsCommonPrefix(p[1..], a, b);
    }
  }

  lemma {:induction false} FirstDifferenceDecides(a: seq<int>, b: seq<int>, k: nat)
    requires k < |a| && k < |b| && a[..k] == b[..k] && a[k] < b[k]
    ensures LexLess(a, b) && !LexLess(b, a)
  {
    if k > 0 {
      assert a[0] == a[..k][0] == b[..k][0] == b[0];
      assert a[1..][..k - 1] == a[..k][1..] == b[..k][1..] == b[1..][..k - 1];
      FirstDifferenceDecides(a[1..], b[1..], k - 1);
    }
  }

  /** The six-bit groups of a scalar, most significant first. */
  function Group(c: nat, n: nat): nat
    requires n <= 3
  {
    if n == 0 then c / 0x4_0000 else if n == 1 then c / 0x1000 % 0x40 else if n == 2 then c / 0x40 % 0x40 else c % 0x40
  }

  lemma GroupsMakeTheScalar(c: nat)
    ensures c == 0x4_0000 * Group(c, 0) + 0x1000 * Group(c, 1) + 0x40 * Group(c, 2) + Group(c, 3)
    ensures c / 0x40 == 0x1000 * Group(c, 0) + 0x40 * Group(c, 1) + Group(c, 2)
    ensures c / 0x1000 == 0x40 * Group(c, 0) + Group(c, 1)
  {
  }

  /** Where the encodings of two different scalars first differ, the smaller scalar
      has the smaller byte. */
  lemma SmallerScalarSmallerByte(c: Scalar, d: Scalar) returns (k: nat)
    requires c < d
    ensures k < |EncodeOne(c)| && k < |EncodeOne(d)|
    ensures EncodeOne(c)[..k] == EncodeOne(d)[..k]
    ensures EncodeOne(c)[k] < EncodeOne(d)[k]
  {
    var x, y := EncodeOne(c), EncodeOne(d);
    if |x| != |y| || d < 0x80 {
      k := 0;
    } else if d < 0x800 {
      k := if c / 0x40 != d / 0x40 then 0 else 1;
    } else if d < 0x1_0000 {
      k := SmallerTriple(c, d);
    } else {
      k := SmallerQuadruple(c, d);
    }
  }

  lemma SmallerTriple(c: Scalar, d: Scalar) returns (k: nat)
    requires 0x800 <= c < d < 0x1_0000
    ensures k < 3 && EncodeOne(c)[..k] == EncodeOne(d)[..k] && EncodeOne(c)[k] < EncodeOne(d)[k]
  {
    GroupsMakeTheScalar(c);
    GroupsMakeTheScalar(d);
    k := if c / 0x1000 != d / 0x1000 then 0 else if Group(c, 2) != Group(d, 2) then 1 else 2;
  }

  lemma SmallerQuadruple(c: Scalar, d: Scalar) returns (k: nat)
    requires 0x1_0000 <= c < d
    ensures k < 4 && EncodeOne(c)[..k] == EncodeOne(d)[..k] && EncodeOne(c)[k] < EncodeOne(d)[k]
  {
    GroupsMakeTheScalar(c);
    GroupsMakeTheScalar(d);
    k := if Group(c, 0) != Group(d, 0) then 0 else if Group(c, 1) != Group(d, 1) then 1
         else if Group(c, 2) != Group(d, 2) then 2 else 3;
  }

  /** UTF-8's byte order is code-point order, for every pair of texts; in particular
      no two texts share an encoding. */
  lemma {:induction false} ByteOrderIsCodePointOrder(s: seq<Scalar>, t: seq<Scalar>)
    ensures LexLess(Encode(s), Encode(t)) <==> LexLess(s, t)
    ensures Encode(s) == Encode(t) <==> s == t
  {
    if s == [] || t == [] {
    } else if s[0] == t[0] {
      ByteOrderIsCodePointOrder(s[1..], t[1..]);
      EqualHeadsCancel(s, t);
    } else if s[0] < t[0] {
      SmallerHeadDecides(s, t);
    } else {
      SmallerHeadDecides(t, s);
    }
  }

  lemma EqualHeadsCancel(s: seq<Scalar>, t: seq<Scalar>)
    requires s != [] && t != [] && s[0] == t[0]
    ensures LexLess(Encode(s), Encode(t)) == LexLess(Encode(s[1..]), Encode(t[1..]))
    ensures Encode(s) == Encode(t) <==> Encode(s[1..]) == Encode(t[1..])
    ensures s == t <==> s[1..] == t[1..]
  {
    var x, u, v := EncodeOne(s[0]), Encode(s[1..]), Encode(t[1..]);
    LexLessSkipsCommonPrefix(x, u, v);
    assert (x + u)[|x|..] == u && (x + v)[|x|..] == v;
    assert s == [s[0]] + s[1..] && t == [t[0]] + t[1..];
  }

  lemma SmallerHeadDecides(s: seq<Scalar>, t: seq<Scalar>)
    requires s != [] && t != [] && s[0] < t[0]
    ensures LexLess(Encode(s), Encode(t)) && !LexLess(Encode(t), Encode(s))
    ensures Encode(s) != Encode(t)
  {
    var x, y := EncodeOne(s[0]), EncodeOne(t[0]);
    var k := SmallerScalarSmallerByte(s[0], t[0]);
    assert Encode(s)[..k] == x[..k] && Encode(t)[..k] == y[..k];
    assert Encode(s)[k] == x[k] && Encode(t)[k] == y[k];
    FirstDifferenceDecides(Encode(s), Encode(t), k);
  }

  function CountLeads(bytes: seq<Byte>): nat {
    if bytes == [] then 0
    else CountLeads(bytes[..|bytes| - 1]) + (if IsContinuation(bytes[|bytes| - 1]) then 0 else 1)
  }

  lemma {:induction false} CountLeadsAdds(a: seq<Byte>, b: seq<Byte>)
    ensures CountLeads(a + b) == CountLeads(a) + CountLeads(b)
  {
    if b == [] {
      assert a + b == a;
    } else {
      assert (a + b)[..|a + b| - 1] == a + b[..|b| - 1];
      CountLeadsAdds(a, b[..|b| - 1]);
    }
  }

  lemma {:induction false} ContinuationsDoNotCount(bytes: seq<Byte>, n: nat)
    requires 1 <= n <= |bytes| && !IsContinuation(bytes[0])
    requires forall k :: 1 <= k < |bytes| ==> IsContinuation(bytes[k])
    ensures CountLeads(bytes[..n]) == 1
  {
    assert bytes[..n][..n - 1] == bytes[..n - 1];
    if n > 1 {
      ContinuationsDoNotCount(bytes, n - 1);
    }
  }

  /** Counting non-continuation bytes counts code points. */
  lemma {:induction false} LeadsAreCodePoints(text: seq<Scalar>)
    ensures CountLeads(Encode(text)) == |text|
  {
    if text != [] {
      var first := EncodeOne(text[0]);
      ContinuationsDoNotCount(first, |first|);
      assert first[..|first|] == first;
      CountLeadsAdds(first, Encode(text[1..]));
      LeadsAreCodePoints(text[1..]);
    }
  }

  /** py::len. */
  method Len(bytes: seq<Byte>) returns (count: nat)
    ensures count == CountLeads(bytes)
    ensures forall text :: bytes == Encode(text) ==> count == |text|
  {
    count := 0;
    for i := 0 to |bytes|
      invariant count == CountLeads(bytes[..i])
    {
      if !IsContinuation(bytes[i]) {
        count := count + 1;
      }
      assert bytes[..i + 1][..i] == bytes[..i];
    }
    assert bytes[..|bytes|] == bytes;
    forall text | bytes == Encode(text) ensures count == |text| {
      LeadsAreCodePoints(text);
    }
  }

  lemma {:induction false} EncodeAdds(s: seq<Scalar>, t: seq<Scalar>)
    ensures Encode(s + t) == Encode(s) + Encode(t)
  {
    if s == [] {
      assert s + t == t;
    } else {
      assert (s + t)[1..] == s[1..] + t;
      EncodeAdds(s[1..], t);
    }
  }

  /** Python's `s * n`; a count below one gives the empty text. */
  function Repeat<T>(s: seq<T>, n: int): seq<T>
    decreases if n < 0 then 0 else n
  {
    if n <= 0 then [] else Repeat(s, n - 1) + s
  }

  lemma {:induction false} EncodeRepeats(s: seq<Scalar>, n: int)
    ensures Encode(Repeat(s, n)) == Repeat(Encode(s), n)
    decreases if n < 0 then 0 else n
  {
    if n > 0 {
      EncodeRepeats(s, n - 1);
      EncodeAdds(Repeat(s, n - 1), s);
    }
  }

  /** py::mul over a str: repeated appending, with no run for a count below one. */
  method Mul(bytes: seq<Byte>, count: int) returns (result: seq<Byte>)
    ensures result == Repeat(bytes, count)
    ensures forall text :: bytes == Encode(text) ==> result == Encode(Repeat(text, count))
  {
    result := [];
    var i := 0;
    while i < count
      invariant 0 <= i && (i <= count || i == 0)
      invariant result == Repeat(bytes, i)
    {
      result := result + bytes;
      i := i + 1;
    }
    forall text | bytes == Encode(text) ensures result == Encode(Repeat(text, count)) {
      EncodeRepeats(text, count);
    }
  }
}
