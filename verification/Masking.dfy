/**
  The masking core: one log record's state in, masked attributes out. Objects live on a heap that may
  hold cycles; what bounds the work is a depth limit and one budget per record.
 */
module Masking {
  import opened Options
  import opened TypeGraph
  import opened MaskedText

  const MAX_MEMBERS_PER_OBJECT := 32
  const MAX_RENDERED_NODES_PER_RECORD := 256
  const MAX_RENDER_DEPTH := 3

  const ORIGINAL_FORMAT_KEY := "{OriginalFormat}"
  const MASKING_ERROR_KEY := "decisya.masking_error"
  const UNSTRUCTURED_STATE := "unstructured_state"

  /**
    A logged value. An atom is any scalar other than a string or Uri; a collection holds its elements, of
    which a dictionary's are entries; an object is a reference.
   */
  datatype Value =
    | Null
    | Text(text: string)
    | Link(uri: Uri)
    | Atom(kind: Type, repr: string)
    | Many(collection: Type, elements: seq<Value>)
    | Entry(key: Value, value: Value)
    | Ref(ref: nat)

  /** What reading a member gives. */
  datatype Got = Got(value: Value) | Throws

  /** An object: its runtime type and what each of the type's members gives, properties first. */
  datatype Object = Object(kind: Type, values: seq<Got>)

  type Heap = nat -> Object

  /** What the shape matcher makes of a text, or that it ran out of time. */
  datatype Matched = Matched(text: string, changed: bool) | TimedOut

  datatype Env = Env(types: Universe, mask: string -> Matched, renderable: Type -> bool)

  /** A masked value: text, a value handed on as it is, processed elements, or a rendered object. */
  datatype Out =
    | Shown(text: string)
    | Passed(value: Value)
    | Listed(elements: seq<Out>)
    | Rendered(members: seq<Rendering>, truncated: bool)

  datatype Rendering = Rendering(name: string, out: Out)

  datatype Processed = Processed(out: Out, masked: bool) | Threw

  const MASKED := Processed(Shown(MASK), true)

  function MemberValue(o: Object, i: nat): (g: Got) {
    if i < |o.values| then o.values[i] else Throws
  }

  // ----- Collections of text -----

  predicate ElementsNeedShapeMasking(u: Universe, t: Type) {
    exists i :: 0 <= i < |u.shape(t).elements| && u.shape(Unwrap(u.shape(t).elements[i])).text
  }

  function ProcessScalarElement(e: Env, v: Value): (p: Processed) {
    match v
    case Text(text) =>
      (match e.mask(text)
       case Matched(masked, changed) => Processed(Shown(masked), changed)
       case TimedOut => Threw)
    case Link(uri) => Processed(Shown(RenderUri(uri)), true)
    case _ => Processed(Passed(v), false)
  }

  datatype Elements = Elements(outs: seq<Out>, changed: bool) | ElementsThrew

  /** The first elements processed, in order. */
  function ProcessFirst(e: Env, elements: seq<Value>, n: nat): (r: Elements)
    requires n <= |elements|
  {
    if n == 0 then Elements([], false)
    else
      match ProcessFirst(e, elements, n - 1)
      case ElementsThrew => ElementsThrew
      case Elements(outs, changed) =>
        match ProcessScalarElement(e, elements[n - 1])
        case Threw => ElementsThrew
        case Processed(out, c) => Elements(outs + [out], changed || c)
  }

  function ProcessScalarElements(e: Env, v: Value): (p: Processed)
    requires v.Many?
  {
    match ProcessFirst(e, v.elements, |v.elements|)
    case ElementsThrew => Threw
    case Elements(outs, changed) => if changed then Processed(Listed(outs), true) else Processed(Passed(v), false)
  }

  // ----- One value -----

  /** What a value needs before anything is rendered: its result, or none for an object to render. */
  function ProcessFlat(e: Env, h: Heap, v: Value): (p: Option<Processed>) {
    match v
    case Null => Some(Processed(Passed(Null), false))
    case Text(_) => Some(ProcessScalarElement(e, v))
    case Link(_) => Some(ProcessScalarElement(e, v))
    case Atom(t, _) => Some(if e.types.shape(t).sensitive then MASKED else Processed(Passed(v), false))
    case Many(t, _) =>
      Some(if e.types.shape(t).sensitive || !HasScalarElements(e.types, t) then MASKED
           else if ElementsNeedShapeMasking(e.types, t) then ProcessScalarElements(e, v)
           else Processed(Passed(v), false))
    case Entry(_, _) => Some(MASKED)
    case Ref(r) =>
      if e.types.shape(h(r).kind).sensitive then Some(MASKED)
      else if !NeedsProcessorRendering(e.types, h(r).kind) then Some(Processed(Passed(v), false))
      else if !e.renderable(h(r).kind) then Some(MASKED)
      else None
  }

  /** A budget is what is left of it; a failed try still takes one off, as the counter does. */
  predicate CanConsume(budget: int) {
    budget > 0
  }

  function ProcessAny(e: Env, h: Heap, v: Value, depth: nat, budget: int): (r: (Processed, int))
    requires depth <= MAX_RENDER_DEPTH + 1
    decreases MAX_RENDER_DEPTH + 1 - depth, 1, 0
  {
    var flat := ProcessFlat(e, h, v);
    if flat.Some? then (flat.value, budget)
    else if depth > MAX_RENDER_DEPTH then (MASKED, budget)
    else if !CanConsume(budget) then (MASKED, budget - 1)
    else
      var (members, rest) := RenderMembers(e, h, h(v.ref), 0, depth, budget - 1);
      (if members.MembersThrew? then Threw else Processed(Rendered(members.members, members.truncated), true), rest)
  }

  datatype MembersOut = MembersOut(members: seq<Rendering>, truncated: bool) | MembersThrew

  function RenderMember(e: Env, h: Heap, o: Object, i: nat, depth: nat, budget: int): (r: (Processed, int))
    requires i < |RenderableProperties(e.types, o.kind)| && depth <= MAX_RENDER_DEPTH
    decreases MAX_RENDER_DEPTH + 1 - depth, 0, 0
  {
    var m := RenderableProperties(e.types, o.kind)[i];
    if e.types.denied(m.name) || IsSensitiveMember(e.types, m) || MemberValue(o, i).Throws? then (MASKED, budget)
    else ProcessAny(e, h, MemberValue(o, i).value, depth + 1, budget)
  }

  /** The members from index `i` on; `i` of them are written already. */
  function RenderMembers(e: Env, h: Heap, o: Object, i: nat, depth: nat, budget: int): (r: (MembersOut, int))
    requires i <= |RenderableProperties(e.types, o.kind)| && depth <= MAX_RENDER_DEPTH
    decreases MAX_RENDER_DEPTH + 1 - depth, 0, |RenderableProperties(e.types, o.kind)| - i + 1
  {
    if i == |RenderableProperties(e.types, o.kind)| then (MembersOut([], false), budget)
    else if i >= MAX_MEMBERS_PER_OBJECT then (MembersOut([], true), budget)
    else if !CanConsume(budget) then (MembersOut([], true), budget - 1)
    else
      var (p, left) := RenderMember(e, h, o, i, depth, budget - 1);
      if p.Threw? then (MembersThrew, left)
      else
        var (more, rest) := RenderMembers(e, h, o, i + 1, depth, left);
        (if more.MembersThrew? then MembersThrew
         else MembersOut([Rendering(RenderableProperties(e.types, o.kind)[i].name, p.out)] + more.members, more.truncated),
         rest)
  }

  function ProcessKeyed(e: Env, h: Heap, key: string, v: Value, budget: int): (r: (Processed, int)) {
    if !e.types.denied(key) then ProcessAny(e, h, v, 0, budget)
    else (if v == Null || v == Text("") then Processed(Passed(v), false) else MASKED, budget)
  }

  // ----- One record -----

  datatype Pair = Pair(key: string, value: Value)

  datatype Attribute = Attribute(key: string, out: Out)

  /** The record so far. */
  datatype Record = Record(
    attributes: seq<Attribute>,
    seen: set<string>,
    template: Option<string>,
    anyMasked: bool,
    valueError: bool,
    budget: int)

  const EMPTY_RECORD := Record([], {}, None, false, false, MAX_RENDERED_NODES_PER_RECORD)

  function AddPair(e: Env, h: Heap, r: Record, p: Pair): (s: Record) {
    if p.key == ORIGINAL_FORMAT_KEY then
      r.(template := if r.template.None? && p.value.Text? then Some(p.value.text) else r.template)
    else if p.key in r.seen then r
    else
      var (processed, rest) := ProcessKeyed(e, h, p.key, p.value, r.budget);
      r.(attributes := r.attributes + [Attribute(p.key, if processed.Threw? then Shown(MASK) else processed.out)],
         seen := r.seen + {p.key},
         anyMasked := r.anyMasked || processed.Threw? || processed.masked,
         valueError := r.valueError || processed.Threw?,
         budget := rest)
  }

  function AddPairs(e: Env, h: Heap, state: seq<Pair>, n: nat): (r: Record)
    requires n <= |state|
  {
    if n == 0 then EMPTY_RECORD else AddPair(e, h, AddPairs(e, h, state, n - 1), state[n - 1])
  }

  datatype MaskedState = MaskedState(attributes: seq<Attribute>, anyMasked: bool, template: Option<string>)

  /** A record without a template, or with a failure, is flagged, unless a pair took the flag's key. */
  function Finish(r: Record): (m: MaskedState) {
    var flagged := (r.template.None? || r.valueError) && MASKING_ERROR_KEY !in r.seen;
    MaskedState(
      r.attributes +
        (if flagged then [Attribute(MASKING_ERROR_KEY, Shown(if r.template.None? then UNSTRUCTURED_STATE else "True"))] else []),
      r.anyMasked || r.template.None?,
      r.template)
  }

  function Process(e: Env, h: Heap, state: seq<Pair>): (m: MaskedState) {
    Finish(AddPairs(e, h, state, |state|))
  }

  // ----- Bounds -----

  function Positive(x: int): (y: nat) {
    if x > 0 then x else 0
  }

  /** The nodes the budget is for: each rendered object and each of its members. */
  function Nodes(out: Out): (n: nat)
    decreases out, 0
  {
    if out.Rendered? then 1 + MemberNodes(out.members) else 0
  }

  function MemberNodes(members: seq<Rendering>): (n: nat)
    decreases members, 0
  {
    if members == [] then 0 else 1 + Nodes(members[0].out) + MemberNodes(members[1..])
  }

  /** How many rendered objects lie one inside the other. */
  predicate AtMostDeep(out: Out, levels: nat)
    decreases out
  {
    out.Rendered? ==> levels > 0 && forall i :: 0 <= i < |out.members| ==> AtMostDeep(out.members[i].out, levels - 1)
  }

  predicate AtMostWide(out: Out)
    decreases out
  {
    out.Rendered? ==>
      |out.members| <= 32 && forall i :: 0 <= i < |out.members| ==> AtMostWide(out.members[i].out)
  }

  ghost predicate Bounded(p: Processed, levels: nat, before: int, after: int) {
    && after <= before
    && (p.Processed? ==>
          && AtMostDeep(p.out, levels) && AtMostWide(p.out)
          && Nodes(p.out) <= Positive(before) - Positive(after))
  }

  /** For every heap, cyclic ones included: what is rendered is paid for, shallow and narrow. */
  lemma {:induction false} ProcessAnyIsBounded(e: Env, h: Heap, v: Value, depth: nat, budget: int)
    requires depth <= MAX_RENDER_DEPTH + 1
    ensures var (p, rest) := ProcessAny(e, h, v, depth, budget); Bounded(p, MAX_RENDER_DEPTH + 1 - depth, budget, rest)
    decreases MAX_RENDER_DEPTH + 1 - depth, 1, 0
  {
    var flat := ProcessFlat(e, h, v);
    if flat.None? && depth <= MAX_RENDER_DEPTH && CanConsume(budget) {
      RenderMembersIsBounded(e, h, h(v.ref), 0, depth, budget - 1);
    }
  }

  lemma {:induction false} RenderMemberIsBounded(e: Env, h: Heap, o: Object, i: nat, depth: nat, budget: int)
    requires i < |RenderableProperties(e.types, o.kind)| && depth <= MAX_RENDER_DEPTH
    ensures var (p, rest) := RenderMember(e, h, o, i, depth, budget); Bounded(p, MAX_RENDER_DEPTH - depth, budget, rest)
    decreases MAX_RENDER_DEPTH + 1 - depth, 0, 0
  {
    var m := RenderableProperties(e.types, o.kind)[i];
    if !e.types.denied(m.name) && !IsSensitiveMember(e.types, m) && MemberValue(o, i).Got? {
      ProcessAnyIsBounded(e, h, MemberValue(o, i).value, depth + 1, budget);
    }
  }

  ghost predicate MembersBounded(out: MembersOut, i: nat, levels: nat, before: int, after: int) {
    && after <= before
    && (out.MembersOut? ==>
          && (i <= MAX_MEMBERS_PER_OBJECT ==> i + |out.members| <= MAX_MEMBERS_PER_OBJECT)
          && MemberNodes(out.members) <= Positive(before) - Positive(after)
          && forall j :: 0 <= j < |out.members| ==>
               AtMostDeep(out.members[j].out, levels) && AtMostWide(out.members[j].out))
  }

  lemma OneMoreMember(r: Rendering, masked: bool, more: MembersOut, i: nat, levels: nat, budget: int, left: int, rest: int)
    requires more.MembersOut? && CanConsume(budget) && i < MAX_MEMBERS_PER_OBJECT
    requires Bounded(Processed(r.out, masked), levels, budget - 1, left) && MembersBounded(more, i + 1, levels, left, rest)
    ensures MembersBounded(MembersOut([r] + more.members, more.truncated), i, levels, budget, rest)
  {
    var all := [r] + more.members;
    assert all[1..] == more.members;
  }

  lemma {:induction false} RenderMembersIsBounded(e: Env, h: Heap, o: Object, i: nat, depth: nat, budget: int)
    requires i <= |RenderableProperties(e.types, o.kind)| && depth <= MAX_RENDER_DEPTH
    ensures var (out, rest) := RenderMembers(e, h, o, i, depth, budget);
      MembersBounded(out, i, MAX_RENDER_DEPTH - depth, budget, rest)
    decreases MAX_RENDER_DEPTH + 1 - depth, 0, |RenderableProperties(e.types, o.kind)| - i + 1
  {
    if i < |RenderableProperties(e.types, o.kind)| && i < MAX_MEMBERS_PER_OBJECT && CanConsume(budget) {
      var (p, left) := RenderMember(e, h, o, i, depth, budget - 1);
      RenderMemberIsBounded(e, h, o, i, depth, budget - 1);
      if p.Processed? {
        RenderMembersIsBounded(e, h, o, i + 1, depth, left);
      }
      RenderFurther(e, h, o, i, depth, budget);
    }
  }

  lemma RenderFurther(e: Env, h: Heap, o: Object, i: nat, depth: nat, budget: int)
    requires i < |RenderableProperties(e.types, o.kind)| && depth <= MAX_RENDER_DEPTH
    requires i < MAX_MEMBERS_PER_OBJECT && CanConsume(budget)
    requires var (p, left) := RenderMember(e, h, o, i, depth, budget - 1);
      && Bounded(p, MAX_RENDER_DEPTH - depth, budget - 1, left)
      && var (more, rest) := RenderMembers(e, h, o, i + 1, depth, left);
        p.Processed? ==> MembersBounded(more, i + 1, MAX_RENDER_DEPTH - depth, left, rest)
    ensures var (out, rest) := RenderMembers(e, h, o, i, depth, budget);
      MembersBounded(out, i, MAX_RENDER_DEPTH - depth, budget, rest)
  {
    var (p, left) := RenderMember(e, h, o, i, depth, budget - 1);
    if p.Processed? {
      var (more, rest) := RenderMembers(e, h, o, i + 1, depth, left);
      if more.MembersOut? {
        var r := Rendering(RenderableProperties(e.types, o.kind)[i].name, p.out);
        OneMoreMember(r, p.masked, more, i, MAX_RENDER_DEPTH - depth, budget, left, rest);
      }
    }
  }

  function AttributeNodes(attributes: seq<Attribute>): (n: nat) {
    if attributes == [] then 0
    else AttributeNodes(attributes[..|attributes| - 1]) + Nodes(attributes[|attributes| - 1].out)
  }

  ghost predicate RecordBounded(attributes: seq<Attribute>, budget: int) {
    && AttributeNodes(attributes) <= MAX_RENDERED_NODES_PER_RECORD - Positive(budget)
    && budget <= MAX_RENDERED_NODES_PER_RECORD
    && forall a :: a in attributes ==> AtMostDeep(a.out, MAX_RENDER_DEPTH + 1) && AtMostWide(a.out)
  }

  lemma AttributeIsBounded(attributes: seq<Attribute>, a: Attribute, before: int, after: int)
    requires RecordBounded(attributes, before) && after <= before
    requires AtMostDeep(a.out, MAX_RENDER_DEPTH + 1) && AtMostWide(a.out)
    requires Nodes(a.out) <= Positive(before) - Positive(after)
    ensures RecordBounded(attributes + [a], after)
  {
    assert (attributes + [a])[..|attributes|] == attributes;
  }

  lemma {:induction false} AddPairsIsBounded(e: Env, h: Heap, state: seq<Pair>, n: nat)
    requires n <= |state|
    ensures var r := AddPairs(e, h, state, n); RecordBounded(r.attributes, r.budget)
  {
    if n > 0 {
      AddPairsIsBounded(e, h, state, n - 1);
      var r, p := AddPairs(e, h, state, n - 1), state[n - 1];
      if p.key != ORIGINAL_FORMAT_KEY && p.key !in r.seen {
        ProcessAnyIsBounded(e, h, p.value, 0, r.budget);
        var (processed, rest) := ProcessKeyed(e, h, p.key, p.value, r.budget);
        var out := if processed.Threw? then Shown(MASK) else processed.out;
        AttributeIsBounded(r.attributes, Attribute(p.key, out), r.budget, rest);
      }
    }
  }

  /** One record, whatever it logs: at most 256 nodes in all, 32 members an object, objects 4 deep. */
  lemma RecordIsBounded(e: Env, h: Heap, state: seq<Pair>)
    ensures var m := Process(e, h, state);
      && AttributeNodes(m.attributes) <= 256
      && forall a :: a in m.attributes ==> AtMostDeep(a.out, 4) && AtMostWide(a.out)
  {
    AddPairsIsBounded(e, h, state, |state|);
    var r, m := AddPairs(e, h, state, |state|), Process(e, h, state);
    if m.attributes != r.attributes {
      AttributeIsBounded(r.attributes, m.attributes[|r.attributes|], r.budget, r.budget);
    }
  }
}
