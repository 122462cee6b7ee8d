/** Comparing two emissions up to the type numbers in their generated names: each name is renumbered in order of
    first appearance. */
module Renaming {
  /** A text as the scan sees it: a stretch that is kept, or a generated name of one of two families with the
      digits that follow. */
  datatype Family = Drop | Vacant
  datatype Key = Key(family: Family, id: string)
  datatype Piece = Kept(text: string) | Name(key: Key)
  datatype Out = Same(text: string) | Numbered(family: Family, n: nat)

  /** The renumbering, one piece at a time; `seen` is filled as names first appear. */
  method Norm(text: seq<Piece>) returns (out: seq<Out>)
    ensures Normal(text, out)
  {
    out := [];
    var seen: map<Key, nat> := map[];
    for i := 0 to |text|
      invariant (seen, out) == Numbering(text[..i])
    {
      assert text[..i + 1][..i] == text[..i];
      match text[i]
      case Kept(t) =>
        out := out + [Same(t)];
      case Name(key) =>
        if key !in seen {
          seen := seen[key := |seen| + 1];
        }
        out := out + [Numbered(key.family, seen[key])];
    }
    assert text[..|text|] == text;
    NumberingIs(text);
  }

  /** The numbers given so far, and the text with them. */
  function Numbering(text: seq<Piece>): (map<Key, nat>, seq<Out>) {
    if text == [] then (map[], [])
    else
      var (seen, out) := Numbering(text[..|text| - 1]);
      match text[|text| - 1]
      case Kept(t) => (seen, out + [Same(t)])
      case Name(key) =>
        var next := if key in seen then seen else seen[key := |seen| + 1];
        (next, out + [Numbered(key.family, next[key])])
  }

  lemma {:induction false} NumberingIs(text: seq<Piece>)
    ensures var (seen, out) := Numbering(text); Normal(text, out) && Tallies(seen, text, out)
  {
    if text != [] {
      var front := text[..|text| - 1];
      var (seen, out) := Numbering(front);
      NumberingIs(front);
      assert text == front + [text[|text| - 1]];
      match text[|text| - 1]
      case Kept(t) => KeptNext(seen, front, out, t);
      case Name(key) => NameNext(seen, front, out, key);
    }
  }

  /** The largest number given out so far. */
  ghost function Most(out: seq<Out>): nat {
    if out == [] then 0
    else
      var rest := Most(out[..|out| - 1]);
      var last := out[|out| - 1];
      if last.Numbered? && last.n > rest then last.n else rest
  }

  /** Piece by piece the same but for the numbers; two names have one number exactly when they are one name; a
      name not met before gets the next number. */
  ghost predicate Normal(text: seq<Piece>, out: seq<Out>) {
    && |out| == |text|
    && (forall i :: 0 <= i < |text| ==> Alike(text[i], out[i]))
    && (forall i, j :: 0 <= i < |text| && 0 <= j < |text| && text[i].Name? && text[j].Name?
                       ==> (text[i] == text[j] <==> out[i].n == out[j].n))
    && (forall i :: 0 <= i < |text| && text[i].Name? ==> NextAt(out, i))
  }

  /** A number given out before, or the next one. */
  ghost predicate NextAt(out: seq<Out>, i: nat) {
    i < |out| && out[i].Numbered? && 1 <= out[i].n <= Most(out[..i]) + 1
  }

  lemma NextStays(out: seq<Out>, longer: seq<Out>, i: nat)
    requires out <= longer && i < |out|
    ensures NextAt(longer, i) <==> NextAt(out, i)
  {
    assert longer[..i] == out[..i];
  }

  /** `seen` has the number of every name so far; no number is given twice. */
  ghost predicate Tallies(seen: map<Key, nat>, text: seq<Piece>, out: seq<Out>) {
    && |out| == |text|
    && (forall k :: k in seen <==> Name(k) in text)
    && (forall j :: 0 <= j < |text| && text[j].Name? ==>
          text[j].key in seen && out[j] == Numbered(text[j].key.family, seen[text[j].key]))
    && |seen| == Most(out)
    && (forall k :: k in seen ==> 1 <= seen[k] <= |seen|)
    && forall k, l :: k in seen && l in seen && seen[k] == seen[l] ==> k == l
  }

  lemma KeptNext(seen: map<Key, nat>, text: seq<Piece>, out: seq<Out>, t: string)
    requires Normal(text, out) && Tallies(seen, text, out)
    ensures Normal(text + [Kept(t)], out + [Same(t)]) && Tallies(seen, text + [Kept(t)], out + [Same(t)])
  {
    Front(out, Same(t));
  }

  lemma NameNext(seen: map<Key, nat>, text: seq<Piece>, out: seq<Out>, key: Key)
    requires Normal(text, out) && Tallies(seen, text, out)
    ensures var next := if key in seen then seen else seen[key := |seen| + 1];
      && Normal(text + [Name(key)], out + [Numbered(key.family, next[key])])
      && Tallies(next, text + [Name(key)], out + [Numbered(key.family, next[key])])
  {
    var next := if key in seen then seen else seen[key := |seen| + 1];
    var o := Numbered(key.family, next[key]);
    Front(out, o);
    assert |next| == Most(out + [o]);
    NameNormal(next, text, out, key, o);
  }

  ghost predicate Numbers(next: map<Key, nat>, text: seq<Piece>, out: seq<Out>) {
    && |out| == |text|
    && (forall j :: 0 <= j < |text| && text[j].Name? ==>
          text[j].key in next && out[j] == Numbered(text[j].key.family, next[text[j].key]))
    && forall k, l :: k in next && l in next && next[k] == next[l] ==> k == l
  }

  lemma NameNormal(next: map<Key, nat>, text: seq<Piece>, out: seq<Out>, key: Key, o: Out)
    requires Normal(text, out) && Numbers(next, text, out) && key in next && o == Numbered(key.family, next[key])
             && 1 <= o.n <= Most(out) + 1
    ensures Normal(text + [Name(key)], out + [o])
  {
    var t, u := text + [Name(key)], out + [o];
    assert u[..|out|] == out;
    forall j | 0 <= j < |t| && t[j].Name?
      ensures t[j].key in next && u[j] == Numbered(t[j].key.family, next[t[j].key]) && NextAt(u, j)
    {
      if j < |text| {
        assert t[j] == text[j] && NextAt(out, j);
        NextStays(out, u, j);
      }
    }
    NumbersTell(next, t, u);
  }

  /** Numbers that are one name's each tell the names apart. */
  lemma NumbersTell(next: map<Key, nat>, text: seq<Piece>, out: seq<Out>)
    requires Numbers(next, text, out)
    ensures forall i, j ::
              0 <= i < |text| && 0 <= j < |text| && text[i].Name? && text[j].Name? ==>
                (text[i] == text[j] <==> out[i].n == out[j].n)
  {
  }

  lemma Front(out: seq<Out>, o: Out)
    ensures Most(out + [o]) == if o.Numbered? && o.n > Most(out) then o.n else Most(out)
    ensures forall i :: 0 <= i <= |out| ==> (out + [o])[..i] == out[..i]
    ensures out[..|out|] == out
  {
    assert (out + [o])[..|out|] == out;
  }

  predicate Alike(p: Piece, o: Out) {
    match p
    case Kept(t) => o == Same(t)
    case Name(k) => o.Numbered? && o.family == k.family
  }

  /** Rewriting every name by m. */
  ghost predicate Rewrites(m: map<Key, Key>, a: seq<Piece>, b: seq<Piece>) {
    && |a| == |b|
    && (forall k, l :: k in m && l in m && m[k] == m[l] ==> k == l)
    && (forall k :: k in m ==> m[k].family == k.family)
    && forall i :: 0 <= i < |a| ==>
         (a[i].Kept? ==> b[i] == a[i]) && (a[i].Name? ==> a[i].key in m && b[i] == Name(m[a[i].key]))
  }

  /** Some one-to-one renaming that keeps families takes a to b. */
  ghost predicate Renamed(a: seq<Piece>, b: seq<Piece>) {
    exists m :: Rewrites(m, a, b)
  }

  lemma {:induction false} MostCovers(text: seq<Piece>, out: seq<Out>, n: nat)
    requires Normal(text, out) && 1 <= n <= Most(out)
    ensures exists j :: 0 <= j < |out| && out[j].Numbered? && out[j].n == n
  {
    var last := |out| - 1;
    if n <= Most(out[..last]) {
      NormalFront(text, out, last);
      MostCovers(text[..last], out[..last], n);
      var j :| 0 <= j < |out[..last]| && out[..last][j].Numbered? && out[..last][j].n == n;
      assert out[j].Numbered? && out[j].n == n;
    } else {
      assert text[last].Name?;
      assert out[last].n == n;
    }
  }

  lemma NormalFront(text: seq<Piece>, out: seq<Out>, k: nat)
    requires Normal(text, out) && k <= |text|
    ensures Normal(text[..k], out[..k])
  {
    forall i | 0 <= i < k && text[i].Name?
      ensures NextAt(out[..k], i)
    {
      assert NextAt(out, i);
      NextStays(out[..k], out, i);
    }
  }

  /** A renamed text gets the same numbers. */
  lemma {:induction false} SameNumbers(m: map<Key, Key>, a: seq<Piece>, b: seq<Piece>, oa: seq<Out>, ob: seq<Out>,
          k: nat)
    requires Rewrites(m, a, b) && Normal(a, oa) && Normal(b, ob) && k <= |a|
    ensures oa[..k] == ob[..k]
  {
    if k > 0 {
      SameNumbers(m, a, b, oa, ob, k - 1);
      SameNumber(m, a, b, oa, ob, k - 1);
      assert oa[..k] == oa[..k - 1] + [oa[k - 1]];
      assert ob[..k] == ob[..k - 1] + [ob[k - 1]];
    }
  }

  lemma SameNumber(m: map<Key, Key>, a: seq<Piece>, b: seq<Piece>, oa: seq<Out>, ob: seq<Out>, i: nat)
    requires Rewrites(m, a, b) && Normal(a, oa) && Normal(b, ob) && i < |a| && oa[..i] == ob[..i]
    ensures oa[i] == ob[i]
  {
    assert Alike(a[i], oa[i]) && Alike(b[i], ob[i]);
    if a[i].Name? {
      if j :| 0 <= j < i && a[j] == a[i] {
        assert b[j] == b[i];
        assert oa[..i][j] == ob[..i][j];
      } else {
        NewIsNext(a, oa, i);
        StillNew(m, a, b, i);
        NewIsNext(b, ob, i);
      }
    }
  }

  lemma StillNew(m: map<Key, Key>, a: seq<Piece>, b: seq<Piece>, i: nat)
    requires Rewrites(m, a, b) && i < |a| && a[i].Name? && forall j :: 0 <= j < i ==> a[j] != a[i]
    ensures forall j :: 0 <= j < i ==> b[j] != b[i]
  {
    forall j | 0 <= j < i
      ensures b[j] != b[i]
    {
      if a[j].Name? { assert a[j].key != a[i].key; }
    }
  }

  lemma NewIsNext(text: seq<Piece>, out: seq<Out>, i: nat)
    requires Normal(text, out) && i < |text| && text[i].Name? && forall j :: 0 <= j < i ==> text[j] != text[i]
    ensures out[i].n == Most(out[..i]) + 1
  {
    if out[i].n <= Most(out[..i]) {
      NumberTaken(text, out, i, out[i].n);
    }
  }

  lemma NumberTaken(text: seq<Piece>, out: seq<Out>, i: nat, n: nat)
    requires Normal(text, out) && i < |text| && text[i].Name? && forall j :: 0 <= j < i ==> text[j] != text[i]
    requires 1 <= n <= Most(out[..i])
    ensures n != out[i].n
  {
    NormalFront(text, out, i);
    MostCovers(text[..i], out[..i], n);
    var j :| 0 <= j < |out[..i]| && out[..i][j].Numbered? && out[..i][j].n == n;
    assert text[j].Name?;
  }

  /** The number a name gets in a renumbered text, undone: the name at its first place. */
  ghost function Renames(a: seq<Piece>, b: seq<Piece>): map<Key, Key>
    requires |a| == |b|
    requires forall i :: 0 <= i < |a| && a[i].Name? ==> b[i].Name?
  {
    if a == [] then map[]
    else
      var rest := Renames(a[..|a| - 1], b[..|b| - 1]);
      if a[|a| - 1].Name? then rest[a[|a| - 1].key := b[|b| - 1].key] else rest
  }

  lemma {:induction false} RenamesKeys(a: seq<Piece>, b: seq<Piece>, m: map<Key, Key>, k: Key)
    requires |a| == |b| && (forall i :: 0 <= i < |a| && a[i].Name? ==> b[i].Name?) && m == Renames(a, b)
    ensures k in m <==> Name(k) in a
    ensures k in m ==> exists i :: 0 <= i < |a| && a[i] == Name(k) && b[i] == Name(m[k])
  {
    if a != [] {
      var n := |a| - 1;
      var rest := Renames(a[..n], b[..n]);
      RenamesKeys(a[..n], b[..n], rest, k);
      assert a == a[..n] + [a[n]];
      if a[n] == Name(k) {
        assert b[n] == Name(m[k]);
      } else if k in m {
        var i :| 0 <= i < |a[..n]| && a[..n][i] == Name(k) && b[..n][i] == Name(rest[k]);
        assert a[i] == Name(k) && b[i] == Name(m[k]);
      }
    }
  }

  /** The renumbered texts are equal exactly when a one-to-one renaming that keeps families takes one text to
      the other. */
  lemma NormDecides(a: seq<Piece>, b: seq<Piece>, oa: seq<Out>, ob: seq<Out>)
    requires Normal(a, oa) && Normal(b, ob)
    ensures oa == ob <==> Renamed(a, b)
  {
    if Renamed(a, b) {
      var m :| Rewrites(m, a, b);
      SameNumbers(m, a, b, oa, ob, |a|);
      assert oa[..|a|] == oa && ob[..|a|] == ob;
    }
    if oa == ob {
      EqualRenames(a, b, oa);
    }
  }

  lemma EqualRenames(a: seq<Piece>, b: seq<Piece>, out: seq<Out>)
    requires Normal(a, out) && Normal(b, out)
    ensures Renamed(a, b)
  {
    forall i | 0 <= i < |a|
      ensures a[i].Name? ==> b[i].Name? && b[i].key.family == a[i].key.family
      ensures a[i].Kept? ==> b[i] == a[i]
    {
      assert Alike(a[i], out[i]) && Alike(b[i], out[i]);
    }
    var m := Renames(a, b);
    forall k
      ensures k in m <==> Name(k) in a
      ensures k in m ==> exists i :: 0 <= i < |a| && a[i] == Name(k) && b[i] == Name(m[k])
    {
      RenamesKeys(a, b, m, k);
    }
    forall i | 0 <= i < |a| && a[i].Name?
      ensures a[i].key in m && b[i] == Name(m[a[i].key])
    {
      var k := a[i].key;
      assert Name(k) in a;
      var j :| 0 <= j < |a| && a[j] == Name(k) && b[j] == Name(m[k]);
      assert out[i].n == out[j].n;
    }
    forall k, l | k in m && l in m && m[k] == m[l]
      ensures k == l
    {
      var i :| 0 <= i < |a| && a[i] == Name(k) && b[i] == Name(m[k]);
      var j :| 0 <= j < |a| && a[j] == Name(l) && b[j] == Name(m[l]);
      assert out[i].n == out[j].n;
    }
    assert Rewrites(m, a, b);
  }
}
