/** Python strings as sequences of code points, and their UTF-8 bytes. */
module Texts {

  datatype Option<+T> = None | Some(value: T)

  type CodePoint = c: nat | c < 0x110000
  type Text = seq<CodePoint>
  type Token = t: Text | IsToken(t) witness [0x30]
  type Byte = b: nat | b < 0x100

  const COMMA: Text := [0x2C]

  /** The characters of numbers and of the names true, false, null, NaN and Infinity. */
  predicate TokenChar(c: CodePoint) {
    0x30 <= c <= 0x39 || 0x41 <= c <= 0x5A || 0x61 <= c <= 0x7A || c == 0x2B || c == 0x2D || c == 0x2E
  }

  predicate IsToken(t: Text) {
    t != [] && forall i :: 0 <= i < |t| ==> TokenChar(t[i])
  }

  predicate IsAscii(t: Text) {
    forall i :: 0 <= i < |t| ==> t[i] < 0x80
  }

  function Concat<T>(parts: seq<seq<T>>): seq<T> {
    if parts == [] then [] else parts[0] + Concat(parts[1..])
  }

  lemma Associates<T>(a: seq<T>, b: seq<T>, c: seq<T>)
    ensures a + b + c == a + (b + c)
  {
  }

  lemma {:induction false} ConcatAppend<T>(a: seq<seq<T>>, b: seq<seq<T>>)
    ensures Concat(a + b) == Concat(a) + Concat(b)
  {
    if a == [] {
      assert a + b == b;
    } else {
      assert (a + b)[1..] == a[1..] + b;
      ConcatAppend(a[1..], b);
    }
  }

  lemma ConcatSnoc<T>(a: seq<seq<T>>, x: seq<T>)
    ensures Concat(a + [x]) == Concat(a) + x
  {
    ConcatAppend(a, [x]);
    assert Concat([x]) == x;
  }

  /** One code point in UTF-8 (RFC 3629 section 3); a lone surrogate has no encoding. */
  function Utf8Char(c: CodePoint): Option<seq<Byte>> {
    if c < 0x80 then Some([c])
    else if c < 0x800 then Some([0xC0 + c / 0x40, 0x80 + c % 0x40])
    else if 0xD800 <= c < 0xE000 then None
    else if c < 0x1_0000 then Some([0xE0 + c / 0x1000, 0x80 + c / 0x40 % 0x40, 0x80 + c % 0x40])
    else Some([0xF0 + c / 0x4_0000, 0x80 + c / 0x1000 % 0x40, 0x80 + c / 0x40 % 0x40, 0x80 + c % 0x40])
  }

  function Utf8(t: Text): Option<seq<Byte>> {
    if t == [] then Some([])
    else
      match (Utf8Char(t[0]), Utf8(t[1..]))
      case (Some(a), Some(b)) => Some(a + b)
      case _ => None
  }

  function Utf8All(parts: seq<Text>): Option<seq<seq<Byte>>> {
    if parts == [] then Some([])
    else
      match (Utf8(parts[0]), Utf8All(parts[1..]))
      case (Some(a), Some(b)) => Some([a] + b)
      case _ => None
  }

  lemma {:induction false} Utf8Append(a: Text, b: Text)
    ensures Utf8(a + b) ==
            (match (Utf8(a), Utf8(b)) case (Some(x), Some(y)) => Some(x + y) case _ => None)
  {
    if a == [] {
      assert a + b == b;
      assert Utf8(b).Some? ==> [] + Utf8(b).value == Utf8(b).value;
    } else {
      assert (a + b)[1..] == a[1..] + b;
      Utf8Append(a[1..], b);
      if Utf8Char(a[0]).Some? && Utf8(a[1..]).Some? && Utf8(b).Some? {
        var x, y, z := Utf8Char(a[0]).value, Utf8(a[1..]).value, Utf8(b).value;
        assert (x + y) + z == x + (y + z);
      }
    }
  }

  /** Encoding piece by piece is encoding the whole. */
  lemma {:induction false} Utf8OfConcat(parts: seq<Text>)
    ensures Utf8All(parts).Some? <==> Utf8(Concat(parts)).Some?
    ensures Utf8All(parts).Some? ==> Concat(Utf8All(parts).value) == Utf8(Concat(parts)).value
  {
    if parts != [] {
      Utf8OfConcat(parts[1..]);
      Utf8Append(parts[0], Concat(parts[1..]));
      if Utf8All(parts).Some? {
        assert ([Utf8(parts[0]).value] + Utf8All(parts[1..]).value)[1..] == Utf8All(parts[1..]).value;
      }
    }
  }

  lemma {:induction false} Utf8AllSnoc(parts: seq<Text>, x: Text)
    ensures Utf8All(parts + [x]) ==
            (match (Utf8All(parts), Utf8(x)) case (Some(a), Some(b)) => Some(a + [b]) case _ => None)
  {
    if parts == [] {
      assert parts + [x] == [x];
      assert Utf8All([x][1..]) == Some([]);
      assert Utf8(x).Some? ==> [] + [Utf8(x).value] == [Utf8(x).value] + [];
    } else {
      assert (parts + [x])[1..] == parts[1..] + [x];
      Utf8AllSnoc(parts[1..], x);
      if Utf8(parts[0]).Some? && Utf8All(parts[1..]).Some? && Utf8(x).Some? {
        var a, b, c := Utf8(parts[0]).value, Utf8All(parts[1..]).value, Utf8(x).value;
        assert ([a] + b) + [c] == [a] + (b + [c]);
      }
    }
  }

  lemma {:induction false} Utf8OfAscii(t: Text)
    requires IsAscii(t)
    ensures Utf8(t).Some? && |Utf8(t).value| == |t|
  {
    if t != [] {
      Utf8OfAscii(t[1..]);
    }
  }
}
