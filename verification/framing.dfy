/** Byte framing used by the mailbox layers: `split_into` (fixed split
    points), netstrings (`"%d:%s,"`), and the 8-byte big-endian sequence
    numbers written with `struct.pack(">Q", n)`.

    `util.split_into` and the `netstring` helper are not part of this model;
    their behaviour is taken from the unit test of `split_into` and from the
    usual netstring layout. */
module Framing {
  import opened Common
  import opened Text

  // ---------------------------------------------------------------------
  // split_into

  function Sum(lens: seq<nat>): nat
  {
    if |lens| == 0 then 0 else lens[0] + Sum(lens[1..])
  }

  function Concat(pieces: seq<string>): string
  {
    if |pieces| == 0 then "" else pieces[0] + Concat(pieces[1..])
  }

  /** Cuts pieces of the given lengths off the front of `s`; returns them
      and what is left. */
  function Cut(s: string, lens: seq<nat>): (r: (seq<string>, string))
    requires Sum(lens) <= |s|
    ensures |r.0| == |lens|
    ensures forall i :: 0 <= i < |lens| ==> |r.0[i]| == lens[i]
    ensures |r.1| == |s| - Sum(lens)
    ensures Concat(r.0) + r.1 == s
  {
    if |lens| == 0 then ([], s)
    else
      var (ps, rest) := Cut(s[lens[0]..], lens[1..]);
      var pieces := [s[..lens[0]]] + ps;
      assert pieces[1..] == ps;
      assert s == s[..lens[0]] + s[lens[0]..];
      (pieces, rest)
  }

  /** `split_into(s, lens, plus_trailer)`: the pieces of exactly the given
      lengths, followed by the remainder iff `plusTrailer`; ValueError when
      the lengths overrun `s`, or do not use all of it without a trailer. */
  function SplitInto(s: string, lens: seq<nat>, plusTrailer: bool): (r: Result<seq<string>, Failure>)
    ensures r.Ok? <==> Sum(lens) <= |s| && (plusTrailer || Sum(lens) == |s|)
    ensures r.Ok? ==> |r.value| == |lens| + (if plusTrailer then 1 else 0)
    ensures r.Ok? ==> forall i :: 0 <= i < |lens| ==> |r.value[i]| == lens[i]
    ensures r.Ok? ==> Concat(r.value) == s
    ensures r.Err? ==> r.error.ValueError?
  {
    if Sum(lens) > |s| || (!plusTrailer && Sum(lens) != |s|) then
      Err(ValueError("split_into lengths do not match the string"))
    else
      var (pieces, rest) := Cut(s, lens);
      if plusTrailer then
        ConcatAppend(pieces, rest);
        Ok(pieces + [rest])
      else
        assert rest == "";
        Ok(pieces)
  }

  lemma {:induction false} ConcatAppend(pieces: seq<string>, last: string)
    ensures Concat(pieces + [last]) == Concat(pieces) + last
  {
    if |pieces| > 0 {
      assert (pieces + [last])[1..] == pieces[1..] + [last];
      ConcatAppend(pieces[1..], last);
    } else {
      assert pieces + [last] == [last];
    }
  }

  lemma Sum2(a: nat, b: nat)
    ensures Sum([a, b]) == a + b
  {
    assert [a, b][1..] == [b];
    assert [b][1..] == [];
    assert Sum([b]) == b + Sum([]);
  }

  lemma Sum3(a: nat, b: nat, c: nat)
    ensures Sum([a, b, c]) == a + b + c
  {
    assert [a, b, c][1..] == [b, c];
    Sum2(b, c);
  }

  lemma Concat4(ps: seq<string>)
    requires |ps| == 4
    ensures Concat(ps) == ps[0] + ps[1] + ps[2] + ps[3]
  {
    var p1, p2, p3 := ps[1..], ps[2..], ps[3..];
    assert p1[1..] == p2 && p2[1..] == p3 && p3[1..] == [];
    assert Concat(p3) == ps[3] + Concat([]);
    assert Concat(p2) == ps[2] + Concat(p3);
    assert Concat(p1) == ps[1] + Concat(p2);
  }

  /** Lengths that use up the string give exactly those pieces. */
  lemma SplitIntoExactFit()
    ensures SplitInto("ABBCCC", [1, 2, 3], false) == Ok(["A", "BB", "CCC"])
  {
    var s := "ABBCCC";
    Sum3(1, 2, 3);
    var s1 := s[1..];
    var s2 := s1[2..];
    assert s1 == "BBCCC" && s2 == "CCC";
    assert s2[..3] == "CCC" && s2[3..] == "" && s1[..2] == "BB" && s[..1] == "A";
    assert [1, 2, 3][1..] == [2, 3] && [2, 3][1..] == [3] && [3][1..] == [];
    var c3 := Cut(s2[3..], []);
    assert c3 == ([], "");
    var c2 := Cut(s2, [3]);
    assert c2.0 == [s2[..3]] + c3.0 == ["CCC"] && c2.1 == "";
    var c1 := Cut(s1, [2, 3]);
    assert c1.0 == [s1[..2]] + c2.0 == ["BB", "CCC"] && c1.1 == "";
    var c0 := Cut(s, [1, 2, 3]);
    assert c0.0 == [s[..1]] + c1.0 == ["A", "BB", "CCC"] && c0.1 == "";
  }

  /** With a trailer, what the lengths leave over is the last piece. */
  lemma SplitIntoTrailer()
    ensures SplitInto("ABBCCC", [2, 1], true) == Ok(["AB", "B", "CCC"])
  {
    var s := "ABBCCC";
    Sum2(2, 1);
    var t := s[2..];
    assert t == "BCCC" && t[1..] == "CCC" && t[..1] == "B" && s[..2] == "AB";
    assert [2, 1][1..] == [1] && [1][1..] == [];
    var d2 := Cut(t[1..], []);
    assert d2 == ([], "CCC");
    var d1 := Cut(t, [1]);
    assert d1.0 == [t[..1]] + d2.0 == ["B"] && d1.1 == "CCC";
    var d0 := Cut(s, [2, 1]);
    assert d0.0 == [s[..2]] + d1.0 == ["AB", "B"] && d0.1 == "CCC";
    assert d0.0 + [d0.1] == ["AB", "B", "CCC"];
  }

  /** The three cases the unit test of `split_into` pins down: an exact
      fit, a trailer, and left-over bytes without a trailer (ValueError). */
  lemma SplitIntoExamples()
    ensures SplitInto("ABBCCC", [1, 2, 3], false) == Ok(["A", "BB", "CCC"])
    ensures SplitInto("ABBCCC", [2, 1], true) == Ok(["AB", "B", "CCC"])
    ensures SplitInto("ABBCCC", [2, 1], false).Err?
    ensures SplitInto("ABBCCC", [2, 1], false).error.ValueError?
  {
    SplitIntoExactFit();
    SplitIntoTrailer();
    Sum2(2, 1);
  }

  // ---------------------------------------------------------------------
  // netstrings

  /** `netstring(d)`: decimal length, ':', the data, ','. */
  function Netstring(d: string): string
  {
    Decimal(|d|) + ":" + d + ","
  }

  /** `re.search(r'^(\d+):', s)` matches: a non-empty digit run, then ':'. */
  predicate HasNetstringHeader(s: string)
  {
    var k := DigitRun(s);
    0 < k < |s| && s[k] == ':'
  }

  /** Reads one netstring off the front of `s` the way the inbound channel
      does: a leading decimal length and ':' (SilentError otherwise), then
      `split_into` at the header, the data and the one-byte trailer (its
      ValueError when `s` is too short), then a ',' trailer (SilentError
      otherwise). Returns the data and what follows. */
  function ParseNetstring(s: string): (r: Result<(string, string), Failure>)
    ensures r.Err? ==> r.error.SilentError? || r.error.ValueError?
    ensures !HasNetstringHeader(s) ==> r == Err(SilentError("msgD lacks a netstring header"))
    ensures HasNetstringHeader(s) ==>
      var k := DigitRun(s);
      var n := ParseDecimal(s[..k]);
      && (|s| < k + n + 2 ==> r.Err? && r.error.ValueError?)
      && (k + n + 2 <= |s| ==> (r.Ok? <==> s[k + 1 + n] == ','))
      && (k + n + 2 <= |s| && s[k + 1 + n] != ',' ==> r == Err(SilentError("msgD has bad netstring trailer")))
    ensures r.Ok? ==>
      var k := DigitRun(s);
      && 0 < k
      && ParseDecimal(s[..k]) == |r.value.0|
      && s == s[..k] + ":" + r.value.0 + "," + r.value.1
  {
    var k := DigitRun(s);
    if k == 0 || k == |s| || s[k] != ':' then Err(SilentError("msgD lacks a netstring header"))
    else
      var n := ParseDecimal(s[..k]);
      Sum3(k + 1, n, 1);
      match SplitInto(s, [k + 1, n, 1], true)
      case Err(e) => Err(e)
      case Ok(parts) =>
        Concat4(parts);
        assert s[k + 1 + n] == (parts[0] + parts[1] + parts[2] + parts[3])[k + 1 + n] == parts[2][0];
        if parts[2] != "," then Err(SilentError("msgD has bad netstring trailer"))
        else
          assert parts[0] == s[..k + 1] == s[..k] + ":";
          Ok((parts[1], parts[3]))
  }

  /** Parsing undoes framing: the data and the bytes after it come back. */
  lemma NetstringRoundTrip(d: string, rest: string)
    ensures ParseNetstring(Netstring(d) + rest) == Ok((d, rest))
  {
    var num := Decimal(|d|);
    var s := Netstring(d) + rest;
    assert s == num + (":" + d + "," + rest);
    DigitRunOfNumeral(num, ":" + d + "," + rest);
    var k := |num|;
    assert s[..k] == num && s[k] == ':';
    Sum3(k + 1, |d|, 1);
    var parts := SplitInto(s, [k + 1, |d|, 1], true).value;
    Concat4(parts);
    assert parts[0] == s[..k + 1];
    assert parts[1] == s[k + 1..k + 1 + |d|] == d;
    assert parts[2] == s[k + 1 + |d|..k + 2 + |d|] == ",";
    assert parts[3] == s[k + 2 + |d|..] == rest;
  }

  // ---------------------------------------------------------------------
  // struct.pack(">Q", n)

  /** `struct.calcsize(">Q")`: an unsigned 64-bit integer takes 8 bytes. */
  const QWidth: nat := 8

  function Pow256(w: nat): nat
  {
    if w == 0 then 1 else 256 * Pow256(w - 1)
  }

  /** The value of a big-endian byte string. */
  function FromBigEndian(s: string): nat
  {
    if |s| == 0 then 0 else FromBigEndian(s[..|s| - 1]) * 256 + (s[|s| - 1] as int % 256)
  }

  lemma DivBound(n: nat, p: nat)
    ensures n < 256 * p ==> n / 256 < p
  {
  }

  /** The `w` low-order bytes of `n`, most significant first. */
  function BigEndian(n: nat, w: nat): (r: string)
    ensures |r| == w && IsBytes(r)
    ensures n < Pow256(w) ==> FromBigEndian(r) == n
  {
    if w == 0 then ""
    else
      var r := BigEndian(n / 256, w - 1) + [(n % 256) as char];
      assert r[..|r| - 1] == BigEndian(n / 256, w - 1);
      DivBound(n, Pow256(w - 1));
      r
  }

  /** `struct.pack(">Q", n)`: 8 bytes, and struct.error outside
      0 .. 2^64 - 1; the bytes read back as `n`. */
  function Pack64(n: int): (r: Result<string, Failure>)
    ensures r.Ok? <==> 0 <= n < Pow256(QWidth)
    ensures r.Ok? ==> |r.value| == QWidth && IsBytes(r.value) && FromBigEndian(r.value) == n
  {
    if 0 <= n < Pow256(QWidth) then Ok(BigEndian(n, QWidth))
    else Err(StructError("integer out of range for 'Q' format code"))
  }

  /** A number below 256^(w-1) has a zero first byte. */
  lemma {:induction false} BigEndianLeadingZero(n: nat, w: nat)
    requires w >= 1 && n < Pow256(w - 1)
    ensures BigEndian(n, w)[0] == 0 as char
  {
    if w > 1 {
      DivBound(n, Pow256(w - 2));
      BigEndianLeadingZero(n / 256, w - 1);
    }
  }

  /** The module-level check at import time, as written: it compares the
      width of ">Q" with 64. */
  function ImportCheckAsWritten(): (r: Result<(), Failure>)
  {
    if QWidth == 64 then Ok(()) else Err(AssertionError("struct.calcsize('>Q') == 64"))
  }

  /** As written, importing the channel module always fails. */
  lemma ImportCheckAsWrittenFails()
    ensures ImportCheckAsWritten().Err?
  {
  }

  /** The check as intended compares with the 8-byte width every packed
      sequence number has, and passes. */
  function ImportCheck(): (r: Result<(), Failure>)
    ensures r.Ok?
    ensures forall n :: 0 <= n < Pow256(QWidth) ==> |Pack64(n).value| == QWidth
  {
    if QWidth == 8 then Ok(()) else Err(AssertionError("struct.calcsize('>Q') == 8"))
  }
}
