/** The comparison of two emissions as the flat texts it prints, and when those tell what the pieces tell. */
module Texts {
  import opened Decimals
  import opened Renaming

  const DIGITS := "0123456789"

  predicate IsDigit(c: char) {
    '0' <= c <= '9'
  }

  function Shown(n: nat): string {
    seq(|Digits(n)|, i requires 0 <= i < |Digits(n)| => DIGITS[Digits(n)[i]])
  }

  /** How a renumbered name begins. */
  function Marker(f: Family): string {
    match f
    case Drop => "npk.drop.#"
    case Vacant => "npk.vacant.#"
  }

  function Token(o: Out): string {
    match o
    case Same(t) => t
    case Numbered(f, n) => Marker(f) + Shown(n)
  }

  /** A renumbered name is its family's, a mark, and its number in decimal. */
  lemma TokenIs(n: nat)
    ensures Token(Numbered(Drop, n)) == "npk.drop.#" + Shown(n)
    ensures Token(Numbered(Vacant, n)) == "npk.vacant.#" + Shown(n)
    ensures Number(Digits(n)) == n && |Shown(n)| == |Digits(n)|
    ensures forall i :: 0 <= i < |Shown(n)| ==> Shown(n)[i] as int == '0' as int + Digits(n)[i]
  {
    DigitsRead(n);
  }

  function Flat(out: seq<Out>): string {
    if out == [] then "" else Token(out[0]) + Flat(out[1..])
  }

  predicate MarkAt(s: string, i: nat, f: Family) {
    i + |Marker(f)| <= |s| && forall j :: 0 <= j < |Marker(f)| ==> s[i + j] == Marker(f)[j]
  }

  ghost predicate Marked(s: string) {
    exists i, f :: MarkAt(s, i, f)
  }

  /** A stretch that is kept: not empty, and without a marker of its own. */
  ghost predicate Unmarked(t: string) {
    t != "" && !Marked(t)
  }

  /** As the scan leaves a text: a kept stretch reaches to the next name, and does not start with a digit after
      one; and no kept stretch has a marker. */
  ghost predicate Plain(text: seq<Piece>) {
    && (forall i :: 0 <= i < |text| && text[i].Kept? ==>
          Unmarked(text[i].text) && (i + 1 < |text| ==> text[i + 1].Name?))
    && (forall i :: 0 < i < |text| && text[i].Kept? && text[i - 1].Name? ==> !IsDigit(text[i].text[0]))
  }

  ghost predicate PlainOut(out: seq<Out>) {
    && (forall i :: 0 <= i < |out| && out[i].Same? ==>
          Unmarked(out[i].text) && (i + 1 < |out| ==> out[i + 1].Numbered?))
    && (forall i :: 0 < i < |out| && out[i].Same? && out[i - 1].Numbered? ==> !IsDigit(out[i].text[0]))
  }

  lemma PlainKept(text: seq<Piece>, out: seq<Out>)
    requires Normal(text, out) && Plain(text)
    ensures PlainOut(out)
  {
    forall i | 0 <= i < |out| && out[i].Same?
      ensures Unmarked(out[i].text) && (i + 1 < |out| ==> out[i + 1].Numbered?)
      ensures i > 0 && out[i - 1].Numbered? ==> !IsDigit(out[i].text[0])
    {
      assert Alike(text[i], out[i]);
      if i + 1 < |out| { assert Alike(text[i + 1], out[i + 1]); }
      if i > 0 { assert Alike(text[i - 1], out[i - 1]); }
    }
  }

  lemma PlainRest(out: seq<Out>)
    requires PlainOut(out) && out != []
    ensures PlainOut(out[1..])
  {
    var rest := out[1..];
    assert forall i :: 0 <= i < |rest| ==> rest[i] == out[i + 1];
  }

  lemma ShownDigits(n: nat)
    ensures Shown(n) != "" && forall i :: 0 <= i < |Shown(n)| ==> IsDigit(Shown(n)[i])
  {}

  lemma {:induction false} ShownOnce(n: nat, m: nat)
    requires Shown(n) == Shown(m)
    ensures n == m
  {
    forall i | 0 <= i < |Digits(n)| ensures Digits(n)[i] == Digits(m)[i] {
      assert DIGITS[Digits(n)[i]] == Shown(n)[i] == Shown(m)[i] == DIGITS[Digits(m)[i]];
    }
    assert Digits(n) == Digits(m);
    DigitsRead(n);
    DigitsRead(m);
  }

  /** What follows a number does not go on with it. */
  lemma NoDigitNext(out: seq<Out>)
    requires PlainOut(out) && out != [] && out[0].Numbered?
    ensures Flat(out[1..]) == "" || !IsDigit(Flat(out[1..])[0])
  {
    if |out| > 1 {
      assert Flat(out[1..]) == Token(out[1]) + Flat(out[1..][1..]);
    }
  }

  lemma NotShorter(d: string, r: string, d1: string, r1: string)
    requires d + r == d1 + r1 && (r == "" || !IsDigit(r[0])) && forall i :: 0 <= i < |d1| ==> IsDigit(d1[i])
    ensures |d| >= |d1|
  {
    var s := d + r;
    assert |d| < |s| ==> s[|d|] == r[0];
    assert forall i :: 0 <= i < |d1| ==> s[i] == d1[i];
  }

  lemma NumberEnds(d: string, r: string, d1: string, r1: string)
    requires d + r == d1 + r1 && (r == "" || !IsDigit(r[0])) && (r1 == "" || !IsDigit(r1[0]))
    requires (forall i :: 0 <= i < |d| ==> IsDigit(d[i])) && (forall i :: 0 <= i < |d1| ==> IsDigit(d1[i]))
    ensures d == d1 && r == r1
  {
    NotShorter(d, r, d1, r1);
    NotShorter(d1, r1, d, r);
    assert d == (d + r)[..|d|] && d1 == (d1 + r1)[..|d1|];
    assert r == (d + r)[|d|..] && r1 == (d1 + r1)[|d1|..];
  }

  /** Past its first letter a marker has `n` only before `t`. */
  lemma MarkerLetters(f: Family, k: nat)
    requires 0 < k < |Marker(f)| && Marker(f)[k] == 'n'
    ensures k + 1 < |Marker(f)| && Marker(f)[k + 1] == 't'
  {
    assert f == Drop ==> k == 1 || k == 2 || k == 3 || k == 4 || k == 5 || k == 6 || k == 7 || k == 8 || k == 9;
    if f == Vacant {
      assert k == 1 || k == 2 || k == 3 || k == 4 || k == 5 || k == 6 || k == 7 || k == 8 || k == 9 || k == 10
          || k == 11;
    }
  }

  lemma NumberedIs(out: seq<Out>)
    requires out != [] && out[0].Numbered?
    ensures Flat(out) == Marker(out[0].family) + (Shown(out[0].n) + Flat(out[1..]))
  {
    var m, d, r := Marker(out[0].family), Shown(out[0].n), Flat(out[1..]);
    assert (m + d) + r == m + (d + r);
  }

  /** A name starts with `np`. */
  lemma NameStarts(out: seq<Out>)
    requires out != [] && out[0].Numbered?
    ensures |Flat(out)| > 1 && Flat(out)[0] == 'n' && Flat(out)[1] == 'p' && MarkAt(Flat(out), 0, out[0].family)
  {
    var m := Marker(out[0].family);
    NumberedIs(out);
    assert forall j :: 0 <= j < |m| ==> Flat(out)[0 + j] == m[j];
  }

  /** No marker starts within a kept stretch, not even one that the next name would complete. */
  lemma NoneWithin(out: seq<Out>, i: nat, f: Family)
    requires PlainOut(out) && out != [] && out[0].Same? && i < |out[0].text|
    ensures !MarkAt(Flat(out), i, f)
  {
    var u, s, m := out[0].text, Flat(out), Marker(f);
    var r := Flat(out[1..]);
    assert s == u + r;
    if MarkAt(s, i, f) {
      if i + |m| <= |u| {
        forall j | 0 <= j < |m| ensures u[i + j] == m[j] { assert s[i + j] == u[i + j]; }
        assert MarkAt(u, i, f);
      } else {
        var k := |u| - i;
        NameStarts(out[1..]);
        assert m[k] == s[i + k] == r[0];
        MarkerLetters(f, k);
      }
    }
  }

  lemma MarkNext(out: seq<Out>)
    requires |out| > 1 && out[0].Same? && out[1].Numbered?
    ensures MarkAt(Flat(out), |out[0].text|, out[1].family)
  {
    NameStarts(out[1..]);
    var n, m, r := |out[0].text|, Marker(out[1].family), Flat(out[1..]);
    assert Flat(out) == out[0].text + r;
    forall j | 0 <= j < |m| ensures Flat(out)[n + j] == m[j] { assert r[0 + j] == m[j]; }
  }

  lemma SameHead(a: seq<Out>, b: seq<Out>)
    requires PlainOut(a) && PlainOut(b) && a != [] && b != [] && a[0].Same? && b[0].Same? && Flat(a) == Flat(b)
    ensures |a[0].text| >= |b[0].text|
  {
    assert |a| == 1 ==> a[1..] == [];
    if |a| > 1 && |a[0].text| < |b[0].text| {
      MarkNext(a);
      NoneWithin(b, |a[0].text|, a[1].family);
    }
  }

  /** The letter after the first point tells the family. */
  lemma FamilyIs(f: Family, x: string, g: Family, y: string)
    requires Marker(f) + x == Marker(g) + y
    ensures f == g && x == y
  {
    assert (Marker(f) + x)[4] == Marker(f)[4] && (Marker(g) + y)[4] == Marker(g)[4];
    assert x == (Marker(f) + x)[|Marker(f)|..] && y == (Marker(g) + y)[|Marker(g)|..];
  }

  lemma NumberedHead(a: seq<Out>, b: seq<Out>)
    requires PlainOut(a) && PlainOut(b) && a != [] && b != [] && a[0].Numbered? && b[0].Numbered? && Flat(a) == Flat(b)
    ensures a[0] == b[0] && Flat(a[1..]) == Flat(b[1..])
  {
    var d, r, d1, r1 := Shown(a[0].n), Flat(a[1..]), Shown(b[0].n), Flat(b[1..]);
    NumberedIs(a);
    NumberedIs(b);
    FamilyIs(a[0].family, d + r, b[0].family, d1 + r1);
    NoDigitNext(a);
    NoDigitNext(b);
    ShownDigits(a[0].n);
    ShownDigits(b[0].n);
    NumberEnds(d, r, d1, r1);
    ShownOnce(a[0].n, b[0].n);
  }

  /** A flat text comes from one renumbered sequence only. */
  lemma {:induction false} FlatOnce(a: seq<Out>, b: seq<Out>)
    requires PlainOut(a) && PlainOut(b) && Flat(a) == Flat(b)
    ensures a == b
    decreases |a|
  {
    if a == [] || b == [] {
      TokenLong(a);
      TokenLong(b);
    } else {
      Heads(a, b);
      PlainRest(a);
      PlainRest(b);
      FlatOnce(a[1..], b[1..]);
      assert a == [a[0]] + a[1..] && b == [b[0]] + b[1..];
    }
  }

  lemma TokenLong(a: seq<Out>)
    requires PlainOut(a)
    ensures Flat(a) == "" <==> a == []
  {
    if a != [] && a[0].Numbered? { ShownDigits(a[0].n); }
  }

  lemma Heads(a: seq<Out>, b: seq<Out>)
    requires PlainOut(a) && PlainOut(b) && a != [] && b != [] && Flat(a) == Flat(b)
    ensures a[0] == b[0] && Flat(a[1..]) == Flat(b[1..])
  {
    if a[0].Same? && b[0].Same? {
      SameHead(a, b);
      SameHead(b, a);
      var n := |a[0].text|;
      assert a[0].text == Flat(a)[..n] && b[0].text == Flat(b)[..n];
      assert Flat(a[1..]) == Flat(a)[n..] && Flat(b[1..]) == Flat(b)[n..];
    } else if a[0].Numbered? && b[0].Numbered? {
      NumberedHead(a, b);
    } else if a[0].Numbered? {
      NameStarts(a);
      NoneWithin(b, 0, a[0].family);
    } else {
      NameStarts(b);
      NoneWithin(a, 0, b[0].family);
    }
  }

  /** Where no kept stretch has a marker, the printed texts are equal exactly when a renaming takes one text to
      the other. */
  lemma TextsDecide(a: seq<Piece>, b: seq<Piece>, oa: seq<Out>, ob: seq<Out>)
    requires Normal(a, oa) && Normal(b, ob) && Plain(a) && Plain(b)
    ensures Flat(oa) == Flat(ob) <==> Renamed(a, b)
  {
    PlainKept(a, oa);
    PlainKept(b, ob);
    NormDecides(a, b, oa, ob);
    if Flat(oa) == Flat(ob) { FlatOnce(oa, ob); }
  }

  /** A text that has a marker already can print as one that is not a renaming of it. */
  lemma MarkerKept()
    ensures var a, b := [Kept("npk.drop.#1")], [Name(Key(Drop, "5"))];
            var oa, ob := [Same("npk.drop.#1")], [Numbered(Drop, 1)];
            Normal(a, oa) && Normal(b, ob) && Flat(oa) == Flat(ob) && !Renamed(a, b)
  {
    var b, ob := [Name(Key(Drop, "5"))], [Numbered(Drop, 1)];
    assert ob[..0] == [] && NextAt(ob, 0);
    assert Alike(b[0], ob[0]);
    assert Shown(1) == "1" by { assert Digits(1) == [1]; }
    assert Flat([]) == "" && ob[1..] == [] && [Same("npk.drop.#1")][1..] == [];
    assert Marker(Drop) + "1" == "npk.drop.#1";
  }
}
