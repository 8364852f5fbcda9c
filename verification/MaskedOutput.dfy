/**
  What a sink is shown: for every value whether it is handed on, shown as masked text, rendered or masked whole,
  and for every pair of a record its one attribute. Non-interference says what may not show; this says what does.
 */
module MaskedOutput {
  import opened Options
  import opened TypeGraph
  import opened MaskedText
  import opened Masking

  // ----- Texts -----

  /** A text is shown as the shape matcher made it, wherever it stands. */
  lemma TextShowsAsMatched(e: Env, h: Heap, text: string, depth: nat, budget: int)
    requires depth <= MAX_RENDER_DEPTH + 1
    ensures ProcessAny(e, h, Text(text), depth, budget) ==
      (match e.mask(text) case Matched(shown, changed) => Processed(Shown(shown), changed) case TimedOut => Threw, budget)
  {
  }

  // ----- Collections -----

  predicate TimesOut(e: Env, v: Value) {
    v.Text? && e.mask(v.text).TimedOut?
  }

  /** The element is a URI, or a text that the matcher changes. */
  predicate Changes(e: Env, v: Value) {
    v.Link? || (v.Text? && e.mask(v.text).Matched? && e.mask(v.text).changed)
  }

  /** What stands for an element: the matcher's text, the rendered URI, or the element as it is. */
  predicate StandsFor(e: Env, out: Out, v: Value) {
    match v
    case Text(text) => e.mask(text).Matched? && out == Shown(e.mask(text).text)
    case Link(uri) => out == Shown(RenderUri(uri))
    case _ => out == Passed(v)
  }

  lemma {:induction false} FirstElements(e: Env, elements: seq<Value>, n: nat)
    requires n <= |elements|
    ensures ProcessFirst(e, elements, n).ElementsThrew? <==> exists i :: 0 <= i < n && TimesOut(e, elements[i])
    ensures var r := ProcessFirst(e, elements, n);
      r.Elements? ==>
        && (r.changed <==> exists i :: 0 <= i < n && Changes(e, elements[i]))
        && |r.outs| == n && forall i :: 0 <= i < n ==> StandsFor(e, r.outs[i], elements[i])
  {
    if n > 0 {
      FirstElements(e, elements, n - 1);
      var before, after := ProcessFirst(e, elements, n - 1), ProcessFirst(e, elements, n);
      assert TimesOut(e, elements[n - 1]) <==> ProcessScalarElement(e, elements[n - 1]).Threw?;
      if after.Elements? {
        assert Changes(e, elements[n - 1]) <==> ProcessScalarElement(e, elements[n - 1]).masked;
        assert StandsFor(e, after.outs[n - 1], elements[n - 1]);
        assert forall i :: 0 <= i < n - 1 ==> after.outs[i] == before.outs[i];
      }
    }
  }

  /** The collection's type lets its elements be looked at, and one of its element types is a text. */
  ghost predicate HoldsTexts(e: Env, t: Type) {
    && !e.types.shape(t).sensitive && HasSimpleElements(e.types, t)
    && exists i :: 0 <= i < |e.types.shape(t).elements|
         && e.types.shape(Unwrap(e.types.shape(t).elements[i])).text
  }

  /**
    A collection of texts is shown element by element when one of them changes, handed on when none does, and fails
    when the matcher runs out of time on one.
   */
  lemma TextsShowAsMatched(e: Env, h: Heap, v: Value, depth: nat, budget: int)
    requires v.Many? && HoldsTexts(e, v.collection) && depth <= MAX_RENDER_DEPTH + 1
    ensures var (p, rest) := ProcessAny(e, h, v, depth, budget);
      && rest == budget
      && (p.Threw? <==> exists i :: 0 <= i < |v.elements| && TimesOut(e, v.elements[i]))
      && (p.Processed? ==>
            if exists i :: 0 <= i < |v.elements| && Changes(e, v.elements[i]) then
              && p.masked && p.out.Listed? && |p.out.elements| == |v.elements|
              && forall i :: 0 <= i < |v.elements| ==> StandsFor(e, p.out.elements[i], v.elements[i])
            else p == Processed(Passed(v), false))
  {
    HasScalarElementsIff(e.types, v.collection);
    FirstElements(e, v.elements, |v.elements|);
  }

  // ----- Every other value: handed on, rendered, or masked whole -----

  /** There is nothing in the value for the processor to hide. */
  ghost predicate Harmless(e: Env, h: Heap, v: Value) {
    match v
    case Null => true
    case Atom(t, _) => !e.types.shape(t).sensitive
    case Many(t, _) => !e.types.shape(t).sensitive && HasSimpleElements(e.types, t)
    case Ref(r) =>
      && !e.types.shape(h(r).kind).sensitive
      && !exists path :: Evidence(e.types, path, 0, {}) && path[0] == h(r).kind
    case _ => false
  }

  /** An object that holds something to hide, of a type whose getters may be called. */
  ghost predicate ToRender(e: Env, h: Heap, v: Value) {
    && v.Ref? && !e.types.shape(h(v.ref).kind).sensitive && e.renderable(h(v.ref).kind)
    && exists path :: Evidence(e.types, path, 0, {}) && path[0] == h(v.ref).kind
  }

  /**
    A value that is no text, no URI and no collection of texts is handed on unmasked exactly when there is nothing in it
    to hide. It is rendered exactly when it is an object to render, not below depth 3, and the budget is not used up.
    Anything else shows as the mask and nothing more.
   */
  lemma ValueFate(e: Env, h: Heap, v: Value, depth: nat, budget: int)
    requires depth <= MAX_RENDER_DEPTH + 1 && !v.Text? && !v.Link? && !(v.Many? && HoldsTexts(e, v.collection))
    ensures var p := ProcessAny(e, h, v, depth, budget).0;
      && (Harmless(e, h, v) ==> p == Processed(Passed(v), false))
      && (ToRender(e, h, v) && depth <= 3 && budget > 0 ==> p.Threw? || (p.out.Rendered? && p.masked))
      && (!Harmless(e, h, v) && !(ToRender(e, h, v) && depth <= 3 && budget > 0) ==> p == Processed(Shown("***"), true))
  {
    match v {
      case Many(t, _) => HasScalarElementsIff(e.types, t);
      case Ref(r) => NeedsRenderingIffEvidence(e.types, h(r).kind);
      case _ =>
    }
  }

  /** A URI is shown without its secret parts, and counts as masked. */
  lemma LinkShowsRendered(e: Env, h: Heap, uri: Uri, depth: nat, budget: int)
    requires depth <= MAX_RENDER_DEPTH + 1
    ensures ProcessAny(e, h, Link(uri), depth, budget) == (Processed(Shown(RenderUri(uri)), true), budget)
  {
  }

  // ----- The members of a rendered object -----

  ghost predicate Hidden(e: Env, m: Member) {
    || m.marked || e.types.denied(m.name)
    || e.types.shape(if m.declared.Nullable? then m.declared.underlying else m.declared).sensitive
  }

  /** How one written member shows. */
  ghost predicate MemberShows(e: Env, h: Heap, o: Object, i: nat, depth: nat, r: Rendering)
    requires i < |RenderableProperties(e.types, o.kind)| && depth <= MAX_RENDER_DEPTH
  {
    var m := RenderableProperties(e.types, o.kind)[i];
    && r.name == m.name
    && (Hidden(e, m) || MemberValue(o, i).Throws? ==> r.out == Shown("***"))
    && (!Hidden(e, m) && MemberValue(o, i).Got? ==>
          MayComeTo(e, h, MemberValue(o, i).value, depth + 1, r.out))
  }

  /** With some budget the value comes to this. */
  ghost predicate MayComeTo(e: Env, h: Heap, v: Value, depth: nat, out: Out)
    requires depth <= MAX_RENDER_DEPTH + 1
  {
    exists budget: int :: ComesTo(e, h, v, depth, budget, out)
  }

  predicate ComesTo(e: Env, h: Heap, v: Value, depth: nat, budget: int, out: Out)
    requires depth <= MAX_RENDER_DEPTH + 1
  {
    ProcessAny(e, h, v, depth, budget).0.Processed? && ProcessAny(e, h, v, depth, budget).0.out == out
  }

  lemma MemberShowsSo(e: Env, h: Heap, o: Object, i: nat, depth: nat, budget: int)
    requires i < |RenderableProperties(e.types, o.kind)| && depth <= MAX_RENDER_DEPTH
    requires RenderMember(e, h, o, i, depth, budget).0.Processed?
    ensures MemberShows(e, h, o, i, depth,
                        Rendering(RenderableProperties(e.types, o.kind)[i].name, RenderMember(e, h, o, i, depth, budget).0.out))
  {
    if !Hidden(e, RenderableProperties(e.types, o.kind)[i]) && MemberValue(o, i).Got? {
      assert ComesTo(e, h, MemberValue(o, i).value, depth + 1, budget, RenderMember(e, h, o, i, depth, budget).0.out);
    }
  }

  /**
    The properties are shown one by one in their order. They are cut short only at 32 of them or when the budget is used
    up, and a rendering that is cut short says so.
   */
  lemma {:induction false} MembersShow(e: Env, h: Heap, o: Object, i: nat, depth: nat, budget: int)
    requires i <= |RenderableProperties(e.types, o.kind)| && depth <= MAX_RENDER_DEPTH
    requires RenderMembers(e, h, o, i, depth, budget).0.MembersOut?
    ensures var (out, rest) := RenderMembers(e, h, o, i, depth, budget);
      var all := |RenderableProperties(e.types, o.kind)|;
      && i + |out.members| <= all && (out.truncated <==> i + |out.members| < all)
      && (out.truncated ==> i + |out.members| >= 32 || rest < 0)
      && forall j :: 0 <= j < |out.members| ==> MemberShows(e, h, o, i + j, depth, out.members[j])
    decreases |RenderableProperties(e.types, o.kind)| - i
  {
    if i < |RenderableProperties(e.types, o.kind)| && i < MAX_MEMBERS_PER_OBJECT && CanConsume(budget) {
      var (p, left) := RenderMember(e, h, o, i, depth, budget - 1);
      MemberShowsSo(e, h, o, i, depth, budget - 1);
      MembersShow(e, h, o, i + 1, depth, left);
      var (out, _) := RenderMembers(e, h, o, i, depth, budget);
      var (more, _) := RenderMembers(e, h, o, i + 1, depth, left);
      assert out.members == [Rendering(RenderableProperties(e.types, o.kind)[i].name, p.out)] + more.members;
      forall j | 0 <= j < |out.members| ensures MemberShows(e, h, o, i + j, depth, out.members[j]) {
        if j > 0 {
          assert MemberShows(e, h, o, i + 1 + (j - 1), depth, more.members[j - 1]);
        }
      }
    }
  }

  // ----- Only the matcher's time-out makes anything fail -----

  ghost predicate NeverTimesOut(e: Env) {
    forall text: string :: e.mask(text).Matched?
  }

  lemma {:induction false} AnyComesThrough(e: Env, h: Heap, v: Value, depth: nat, budget: int)
    requires NeverTimesOut(e) && depth <= MAX_RENDER_DEPTH + 1
    ensures ProcessAny(e, h, v, depth, budget).0.Processed?
    decreases MAX_RENDER_DEPTH + 1 - depth, 1, 0
  {
    if v.Many? {
      FirstElements(e, v.elements, |v.elements|);
    }
    if ProcessFlat(e, h, v).None? && depth <= MAX_RENDER_DEPTH && CanConsume(budget) {
      MembersComeThrough(e, h, h(v.ref), 0, depth, budget - 1);
    }
  }

  /** So an object to render, within depth and budget, is rendered unless the matcher runs out of time on some text. */
  lemma {:induction false} MembersComeThrough(e: Env, h: Heap, o: Object, i: nat, depth: nat, budget: int)
    requires NeverTimesOut(e) && i <= |RenderableProperties(e.types, o.kind)| && depth <= MAX_RENDER_DEPTH
    ensures RenderMembers(e, h, o, i, depth, budget).0.MembersOut?
    decreases MAX_RENDER_DEPTH + 1 - depth, 0, |RenderableProperties(e.types, o.kind)| - i + 1
  {
    if i < |RenderableProperties(e.types, o.kind)| && i < MAX_MEMBERS_PER_OBJECT && CanConsume(budget) {
      if MemberValue(o, i).Got? {
        AnyComesThrough(e, h, MemberValue(o, i).value, depth + 1, budget - 1);
      }
      MembersComeThrough(e, h, o, i + 1, depth, RenderMember(e, h, o, i, depth, budget - 1).1);
    }
  }

  /** A text member that is not secret is shown as the shape matcher made it. */
  lemma TextMemberShowsAsMatched(e: Env, h: Heap, r: nat, i: nat, text: string, depth: nat, budget: int)
    requires depth <= MAX_RENDER_DEPTH && ToRender(e, h, Ref(r)) && budget > 0
    requires ProcessAny(e, h, Ref(r), depth, budget).0.Processed?
    requires ProcessAny(e, h, Ref(r), depth, budget).0.out.Rendered?
    requires i < |ProcessAny(e, h, Ref(r), depth, budget).0.out.members|
    requires MemberValue(h(r), i) == Got(Text(text))
    ensures i < |RenderableProperties(e.types, h(r).kind)|
    ensures var m := RenderableProperties(e.types, h(r).kind)[i];
      var out := ProcessAny(e, h, Ref(r), depth, budget).0.out;
      && (Hidden(e, m) ==> out.members[i] == Rendering(m.name, Shown("***")))
      && (!Hidden(e, m) ==> e.mask(text).Matched? && out.members[i] == Rendering(m.name, Shown(e.mask(text).text)))
  {
    NeedsRenderingIffEvidence(e.types, h(r).kind);
    MembersShow(e, h, h(r), 0, depth, budget - 1);
    var out := ProcessAny(e, h, Ref(r), depth, budget).0.out;
    assert out.members == RenderMembers(e, h, h(r), 0, depth, budget - 1).0.members;
    assert MemberShows(e, h, h(r), 0 + i, depth, out.members[i]);
  }

  // ----- One record: one attribute for each key, in order -----

  /** The pair is the first of its key, and not the template's. */
  predicate Counts(state: seq<Pair>, i: nat) {
    && i < |state| && state[i].key != "{OriginalFormat}"
    && forall j :: 0 <= j < i ==> state[j].key != state[i].key
  }

  /** How many attributes come before. */
  function Place(state: seq<Pair>, n: nat): (p: nat)
    requires n <= |state|
    ensures p <= n
  {
    if n == 0 then 0 else Place(state, n - 1) + if Counts(state, n - 1) then 1 else 0
  }

  /** What the pair's value comes to, with what the pairs before it left of the budget. */
  function ResultAt(e: Env, h: Heap, state: seq<Pair>, i: nat): (p: Processed)
    requires i < |state|
  {
    ProcessKeyed(e, h, state[i].key, state[i].value, AddPairs(e, h, state, i).budget).0
  }

  predicate FailsAt(e: Env, h: Heap, state: seq<Pair>, i: nat)
    requires i < |state|
  {
    Counts(state, i) && ResultAt(e, h, state, i).Threw?
  }

  predicate MaskedAt(e: Env, h: Heap, state: seq<Pair>, i: nat)
    requires i < |state|
  {
    Counts(state, i) && ResultAt(e, h, state, i).Processed? && ResultAt(e, h, state, i).masked
  }

  predicate TemplateAt(state: seq<Pair>, i: nat)
    requires i < |state|
  {
    state[i].key == "{OriginalFormat}" && state[i].value.Text?
  }

  /** What the record shows for a pair. */
  function AttributeOf(e: Env, h: Heap, state: seq<Pair>, i: nat): (a: Attribute)
    requires i < |state|
  {
    Attribute(state[i].key, if ResultAt(e, h, state, i).Threw? then Shown("***") else ResultAt(e, h, state, i).out)
  }

  // The record after some of its pairs, pair by pair.

  ghost predicate SeenAre(state: seq<Pair>, n: nat, seen: set<string>)
    requires n <= |state|
  {
    forall key :: key in seen <==> exists i :: 0 <= i < n && state[i].key == key && key != "{OriginalFormat}"
  }

  ghost predicate AttributesAre(e: Env, h: Heap, state: seq<Pair>, n: nat, attributes: seq<Attribute>)
    requires n <= |state|
  {
    && |attributes| == Place(state, n)
    && forall i: nat :: i < n && Counts(state, i) ==>
         && Place(state, i) < |attributes|
         && attributes[Place(state, i)] == AttributeOf(e, h, state, i)
  }

  ghost predicate SomeFail(e: Env, h: Heap, state: seq<Pair>, n: nat)
    requires n <= |state|
  {
    exists i: nat :: i < n && FailsAt(e, h, state, i)
  }

  ghost predicate SomeMasked(e: Env, h: Heap, state: seq<Pair>, n: nat)
    requires n <= |state|
  {
    exists i: nat :: i < n && MaskedAt(e, h, state, i)
  }

  /** The template is the text of the first pair that gives one. */
  ghost predicate TemplateIs(state: seq<Pair>, n: nat, template: Option<string>)
    requires n <= |state|
  {
    match template
    case None => forall i: nat :: i < n ==> !TemplateAt(state, i)
    case Some(text) => exists i: nat :: i < n && FirstTemplate(state, i) && state[i].value == Text(text)
  }

  predicate FirstTemplate(state: seq<Pair>, i: nat)
    requires i < |state|
  {
    TemplateAt(state, i) && forall j: nat :: j < i ==> !TemplateAt(state, j)
  }

  /** A pair changes a record only when it counts or brings the template. */
  lemma OnePair(e: Env, h: Heap, state: seq<Pair>, n: nat)
    requires n < |state| && SeenAre(state, n, AddPairs(e, h, state, n).seen)
    ensures var r, s := AddPairs(e, h, state, n), AddPairs(e, h, state, n + 1);
      && s.seen == (if state[n].key == "{OriginalFormat}" then r.seen else r.seen + {state[n].key})
      && s.attributes ==
           (if Counts(state, n) then r.attributes + [AttributeOf(e, h, state, n)] else r.attributes)
      && s.valueError == (r.valueError || FailsAt(e, h, state, n))
      && s.anyMasked == (r.anyMasked || FailsAt(e, h, state, n) || MaskedAt(e, h, state, n))
      && s.template == (if r.template.None? && TemplateAt(state, n) then Some(state[n].value.text) else r.template)
  {
    var r := AddPairs(e, h, state, n);
    assert state[n].key != "{OriginalFormat}" ==> (state[n].key in r.seen <==> !Counts(state, n));
    assert AddPairs(e, h, state, n + 1) == AddPair(e, h, r, state[n]);
  }

  lemma {:induction false} SeenGrows(e: Env, h: Heap, state: seq<Pair>, n: nat)
    requires n <= |state|
    ensures SeenAre(state, n, AddPairs(e, h, state, n).seen)
  {
    if n > 0 {
      SeenGrows(e, h, state, n - 1);
      OnePair(e, h, state, n - 1);
      var seen := AddPairs(e, h, state, n).seen;
      forall key ensures key in seen <==> exists i :: 0 <= i < n && state[i].key == key && key != "{OriginalFormat}" {
        if key == state[n - 1].key && key != "{OriginalFormat}" {
          assert state[n - 1].key == key;
        }
      }
    }
  }

  lemma OneMoreAttribute(e: Env, h: Heap, state: seq<Pair>, n: nat, before: seq<Attribute>, after: seq<Attribute>)
    requires n < |state| && AttributesAre(e, h, state, n, before)
    requires after == if Counts(state, n) then before + [AttributeOf(e, h, state, n)] else before
    ensures AttributesAre(e, h, state, n + 1, after)
  {
  }

  lemma {:induction false} AttributesGrow(e: Env, h: Heap, state: seq<Pair>, n: nat)
    requires n <= |state|
    ensures AttributesAre(e, h, state, n, AddPairs(e, h, state, n).attributes)
  {
    if n > 0 {
      AttributesGrow(e, h, state, n - 1);
      SeenGrows(e, h, state, n - 1);
      OnePair(e, h, state, n - 1);
      var before, after := AddPairs(e, h, state, n - 1).attributes, AddPairs(e, h, state, n).attributes;
      OneMoreAttribute(e, h, state, n - 1, before, after);
    }
  }

  lemma {:induction false} FlagsGrow(e: Env, h: Heap, state: seq<Pair>, n: nat)
    requires n <= |state|
    ensures AddPairs(e, h, state, n).valueError <==> SomeFail(e, h, state, n)
    ensures AddPairs(e, h, state, n).anyMasked <==> SomeFail(e, h, state, n) || SomeMasked(e, h, state, n)
  {
    if n > 0 {
      FlagsGrow(e, h, state, n - 1);
      SeenGrows(e, h, state, n - 1);
      OnePair(e, h, state, n - 1);
      OneMore(e, h, state, n - 1);
    }
  }

  lemma OneMore(e: Env, h: Heap, state: seq<Pair>, n: nat)
    requires n < |state|
    ensures SomeFail(e, h, state, n + 1) <==> SomeFail(e, h, state, n) || FailsAt(e, h, state, n)
    ensures SomeMasked(e, h, state, n + 1) <==> SomeMasked(e, h, state, n) || MaskedAt(e, h, state, n)
  {
  }

  lemma {:induction false} TemplateStays(e: Env, h: Heap, state: seq<Pair>, n: nat)
    requires n <= |state|
    ensures TemplateIs(state, n, AddPairs(e, h, state, n).template)
  {
    if n > 0 {
      TemplateStays(e, h, state, n - 1);
      SeenGrows(e, h, state, n - 1);
      OnePair(e, h, state, n - 1);
      if AddPairs(e, h, state, n - 1).template.None? && TemplateAt(state, n - 1) {
        assert FirstTemplate(state, n - 1);
      }
    }
  }

  /** The key of the flag is taken by a pair. */
  predicate TakesFlag(state: seq<Pair>) {
    exists i :: 0 <= i < |state| && state[i].key == "decisya.masking_error"
  }

  /**
    A record shows one attribute for the first pair of each key, in their order: the mask where its value failed, else what
    the value came to. A record that failed somewhere or has no template is flagged, unless a pair uses the flag's key.
   */
  lemma RecordShows(e: Env, h: Heap, state: seq<Pair>)
    ensures var m, n := Process(e, h, state), |state|;
      var failed := SomeFail(e, h, state, n);
      var flag := Attribute("decisya.masking_error", Shown(if m.template.None? then "unstructured_state" else "True"));
      && TemplateIs(state, n, m.template)
      && (m.anyMasked <==> m.template.None? || failed || SomeMasked(e, h, state, n))
      && Place(state, n) <= |m.attributes|
      && AttributesAre(e, h, state, n, m.attributes[..Place(state, n)])
      && m.attributes[Place(state, n)..] == if (m.template.None? || failed) && !TakesFlag(state) then [flag] else []
  {
    var n := |state|;
    AttributesGrow(e, h, state, n);
    SeenGrows(e, h, state, n);
    FlagsGrow(e, h, state, n);
    TemplateStays(e, h, state, n);
    var r, m := AddPairs(e, h, state, n), Process(e, h, state);
    assert MASKING_ERROR_KEY in r.seen <==> TakesFlag(state);
    assert m.attributes[..Place(state, n)] == r.attributes;
  }

  /** What each kind of pair comes to: a denied key hides all but null and the empty text, any other text is masked by shape. */
  lemma PairShows(e: Env, h: Heap, state: seq<Pair>, i: nat)
    requires Counts(state, i)
    ensures var (key, v, p) := (state[i].key, state[i].value, ResultAt(e, h, state, i));
      && (e.types.denied(key) ==>
            p == if v == Null || v == Text("") then Processed(Passed(v), false) else Processed(Shown("***"), true))
      && (!e.types.denied(key) ==> p.Threw? || MayComeTo(e, h, v, 0, p.out))
      && (!e.types.denied(key) && v.Text? ==>
            p == match e.mask(v.text) case Matched(shown, changed) => Processed(Shown(shown), changed) case TimedOut => Threw)
  {
    var budget := AddPairs(e, h, state, i).budget;
    var (key, v, p) := (state[i].key, state[i].value, ResultAt(e, h, state, i));
    if !e.types.denied(key) && p.Processed? {
      assert ComesTo(e, h, v, 0, budget, p.out);
    }
  }
}
