/** What the emitter object has written runs as the source function does. */
module Compiled {
  import opened Words
  import opened Source
  import opened Target
  import opened Lowering
  import opened Checked
  import opened SimFunc
  import opened Leaves
  import opened Preservation
  import opened Emission

  /** The machine in some text, from just after its first line. */
  function RunText(o: Oracle, args: seq<nat>, text: seq<Line>, k: nat): MR {
    Steps(Stepper(World(o, args, text)), Cfg(1, map[], map[], []), k)
  }

  ghost predicate Ends(o: Oracle, g: Sigs, f: Func, args: seq<nat>)
    requires |args| == |f.params|
  {
    exists fuel :: !RunFunc(o, g, f, args, fuel).FOutOfFuel?
  }

  /** The text ends when the function does, and as it does. */
  ghost predicate RunsAs(o: Oracle, args: seq<nat>, text: seq<Line>, f: Func, g: Sigs)
    requires |args| == |f.params|
  {
    && ((exists k :: RunText(o, args, text, k).Done?) <==> Ends(o, g, f, args))
    && (forall k, fuel :: RunText(o, args, text, k).Done? && !RunFunc(o, g, f, args, fuel).FOutOfFuel? ==>
          RunText(o, args, text, k) == Done(AnswerOf(f, RunFunc(o, g, f, args, fuel))))
  }

  /** ... whatever the arguments, and whatever the outside answers. */
  ghost predicate Means(text: seq<Line>, f: Func, g: Sigs) {
    forall o: Oracle, args: seq<nat> :: |args| == |f.params| ==> RunsAs(o, args, text, f, g)
  }

  lemma TextRuns(o: Oracle, args: seq<nat>, f: Func, g: Sigs, lbl: nat)
    requires OkFunc(f, g) && Prompt(f) && |args| == |f.params|
    ensures RunsAs(o, args, TextOf(CFunc(f, g, lbl)), f, g)
  {
    var text := TextOf(CFunc(f, g, lbl));
    assert forall k :: RunText(o, args, text, k) == Machine(o, args, f, g, lbl, k);
    Preserved(o, g, f, args, lbl);
    if Ends(o, g, f, args) {
      var k :| Machine(o, args, f, g, lbl, k).Done?;
      assert RunText(o, args, text, k).Done?;
    }
    if k: nat :| RunText(o, args, text, k).Done? {
      assert Machine(o, args, f, g, lbl, k).Done?;
    }
  }

  lemma TextMeans(f: Func, g: Sigs, lbl: nat)
    requires OkFunc(f, g) && Prompt(f)
    ensures Means(TextOf(CFunc(f, g, lbl)), f, g)
  {
    forall o: Oracle, args: seq<nat> | |args| == |f.params|
      ensures RunsAs(o, args, TextOf(CFunc(f, g, lbl)), f, g)
    {
      TextRuns(o, args, f, g, lbl);
    }
  }

  /** A function emitted after others: between its header and its closing lines stands a text that means it. */
  method EmitMeant(e: Emitter, name: string, f: Func)
    requires e.Valid() && !e.inDefer && e.loops == [] && OkFunc(f, e.g) && Prompt(f)
    modifies e
    ensures e.Valid() && !e.inDefer && e.loops == []
    ensures exists text :: e.out == old(e.out) + [Define(name)] + text + [Close, Blank] && Means(text, f, e.g)
  {
    OkFineBody(f.body, Chk(ParamTypes(f.params), [[]], None, e.g, f, false));
    e.EmitFunc(name, f);
    TextMeans(f, e.g, old(e.lbl));
  }
}
