/**
  The masking core does not let secrets through: two records of one shape that differ only in secret
  places give the same attributes, template, flag and budget, texts counting for what the shape matcher
  makes of them. A value that is handed on as it is shows its whole graph of public members, so this rests
  on the soundness of the type walk.

  Runtime types are the declared types wherever the walk goes on from a declared type, and elements of a
  collection fit one of its declared element types.
 */
module NonInterference {
  import opened Options
  import opened TypeGraph
  import opened MaskedText
  import opened Masking

  // ----- What is secret -----

  predicate SecretMember(u: Universe, m: Member) {
    || m.marked || u.denied(m.name)
    || u.shape(if m.declared.Nullable? then m.declared.underlying else m.declared).sensitive
  }

  /** The shape matcher's own law: a text it does not change is the text it gives back. */
  ghost predicate Faithful(e: Env) {
    forall text: string :: e.mask(text).Matched? && !e.mask(text).changed ==> e.mask(text).text == text
  }

  /** A text counts for what the matcher makes of it, a URI for its public parts. */
  predicate SameElement(e: Env, a: Value, b: Value) {
    match a
    case Text(text) => b.Text? && e.mask(b.text) == e.mask(text)
    case Link(uri) => b.Link? && uri.Valid() && b.uri.Valid() && SamePublicParts(uri, b.uri)
    case _ => a == b
  }

  /**
    Equal but for masked texts, and what sits in a sensitive type, in a collection masked whole, or in a URI's secret
    parts.
   */
  ghost predicate SameValue(e: Env, a: Value, b: Value) {
    match a
    case Null => b == a
    case Text(_) => SameElement(e, a, b)
    case Link(_) => SameElement(e, a, b)
    case Atom(t, _) => b.Atom? && b.kind == t && (e.types.shape(t).sensitive || b == a)
    case Many(t, elements) =>
      && b.Many? && b.collection == t
      && (e.types.shape(t).sensitive || !HasSimpleElements(e.types, t) || SameElements(e, elements, b.elements))
    case Entry(_, _) => b.Entry?
    case Ref(_) => b == a
  }

  predicate SameElements(e: Env, a: seq<Value>, b: seq<Value>) {
    |a| == |b| && forall i :: 0 <= i < |a| ==> SameElement(e, a[i], b[i])
  }

  ghost predicate SameGot(e: Env, a: Got, b: Got) {
    if a.Throws? then b.Throws? else b.Got? && SameValue(e, a.value, b.value)
  }

  /** Two objects of one type that agree outside their secret members; a sensitive object is secret throughout. */
  ghost predicate SameObject(e: Env, a: Object, b: Object) {
    && a.kind == b.kind
    && (!e.types.shape(a.kind).sensitive ==>
          forall i :: 0 <= i < |Members(e.types, a.kind)| && !SecretMember(e.types, Members(e.types, a.kind)[i]) ==>
            SameGot(e, MemberValue(a, i), MemberValue(b, i)))
  }

  ghost predicate SameHeap(e: Env, h: Heap, k: Heap) {
    forall r: nat :: SameObject(e, h(r), k(r))
  }

  /**
    Under a denied key only null and the empty text may tell two values apart; under the template's key, two texts.
   */
  ghost predicate SamePair(e: Env, a: Pair, b: Pair) {
    && a.key == b.key
    && (if a.key == ORIGINAL_FORMAT_KEY then a.value.Text? || b.value.Text? ==> a.value == b.value
        else if e.types.denied(a.key) then
          a.value == b.value || (a.value !in {Null, Text("")} && b.value !in {Null, Text("")})
        else SameValue(e, a.value, b.value))
  }

  // ----- Runtime types -----

  /** A member of a type the walk goes on from holds null or a value of that very type. */
  predicate Fits(u: Universe, h: Heap, t: Type, v: Value) {
    || v == Null
    || u.shape(t).text
    || (if u.shape(t).scalar then v.Atom? && v.kind == t
        else if u.shape(t).unknown then true
        else if u.shape(t).enumerable then v.Many? && v.collection == t
        else v.Ref? && h(v.ref).kind == t)
  }

  /** An element of a collection with this declared element type. Of any other type nothing is known. */
  predicate ElementFits(u: Universe, t: Type, v: Value)
    decreases t
  {
    var bare := if t.Nullable? then t.underlying else t;
    || v == Null
    || (if u.shape(bare).text then v.Text? || v.Link?
        else if u.shape(bare).scalar then v.Atom? && v.kind == bare
        else if bare.Pair? then v.Entry? && ElementFits(u, bare.key, v.key) && ElementFits(u, bare.value, v.value)
        else true)
  }

  predicate FitsSome(u: Universe, ts: seq<Type>, v: Value) {
    exists i :: 0 <= i < |ts| && ElementFits(u, ts[i], v)
  }

  /** What a collection holds has one of its element types; without any, nothing is known of it. */
  predicate ElementsFit(u: Universe, v: Value) {
    v.Many? && u.shape(v.collection).elements != [] ==>
      forall i :: 0 <= i < |v.elements| ==> FitsSome(u, u.shape(v.collection).elements, v.elements[i])
  }

  ghost predicate Typed(u: Universe, h: Heap) {
    forall r: nat, i :: 0 <= i < |Members(u, h(r).kind)| && MemberValue(h(r), i).Got? ==>
      && Fits(u, h, Unwrap(Members(u, h(r).kind)[i].declared), MemberValue(h(r), i).value)
      && ElementsFit(u, MemberValue(h(r), i).value)
  }

  ghost predicate Alike(e: Env, h: Heap, k: Heap) {
    Faithful(e) && SameHeap(e, h, k) && Typed(e.types, h) && Typed(e.types, k)
  }

  // ----- What a value that is handed on shows -----

  /** The public member graph, followed along member positions. A collection below the top shows its type and size. */
  datatype Sight = Sight(value: Value, kind: Type) | SightCollection(kind: Type, size: nat) | Nothing

  function Look(h: Heap, v: Value): (s: Sight) {
    match v
    case Ref(r) => Sight(v, h(r).kind)
    case Many(t, elements) => SightCollection(t, |elements|)
    case Atom(t, _) => Sight(v, t)
    case _ => Sight(v, Named(0))
  }

  function Follow(u: Universe, h: Heap, v: Value, steps: seq<nat>): (s: Sight)
    decreases |steps|
  {
    if steps == [] then Look(h, v)
    else if !v.Ref? || steps[0] >= |Members(u, h(v.ref).kind)| || MemberValue(h(v.ref), steps[0]).Throws? then Nothing
    else Follow(u, h, MemberValue(h(v.ref), steps[0]).value, steps[1..])
  }

  /** The two values show the same: a collection and an entry what they hold, an object everything its members lead to. */
  ghost predicate ShowsSame(u: Universe, h: Heap, a: Value, k: Heap, b: Value)
    decreases a
  {
    match a
    case Ref(_) => b.Ref? && forall steps: seq<nat> :: Follow(u, h, a, steps) == Follow(u, k, b, steps)
    case Many(t, elements) =>
      && b.Many? && b.collection == t && |b.elements| == |elements|
      && forall i :: 0 <= i < |elements| ==> ShowsSame(u, h, elements[i], k, b.elements[i])
    case Entry(key, value) => b.Entry? && ShowsSame(u, h, key, k, b.key) && ShowsSame(u, h, value, k, b.value)
    case _ => a == b
  }

  ghost predicate SameOut(u: Universe, h: Heap, a: Out, k: Heap, b: Out)
    decreases a
  {
    match a
    case Shown(_) => b == a
    case Passed(v) => b.Passed? && ShowsSame(u, h, v, k, b.value)
    case Listed(outs) =>
      b.Listed? && |b.elements| == |outs| && forall i :: 0 <= i < |outs| ==> SameOut(u, h, outs[i], k, b.elements[i])
    case Rendered(members, truncated) =>
      && b.Rendered? && b.truncated == truncated && |b.members| == |members|
      && forall i :: 0 <= i < |members| ==>
           b.members[i].name == members[i].name && SameOut(u, h, members[i].out, k, b.members[i].out)
  }

  ghost predicate SameProcessed(u: Universe, h: Heap, a: Processed, k: Heap, b: Processed) {
    if a.Threw? then b.Threw? else b.Processed? && a.masked == b.masked && SameOut(u, h, a.out, k, b.out)
  }

  // ----- Values handed on -----

  /** Everything a type the walk clears leads to is the same in both heaps. */
  lemma {:induction false} ClearedShowsSame(e: Env, h: Heap, k: Heap, v: Value, steps: seq<nat>, path: seq<Type>)
    requires Alike(e, h, k)
    requires v.Ref? && Chain(e.types, path) && Last(path) == h(v.ref).kind
    requires !e.types.shape(Last(path)).sensitive && !NeedsProcessorRendering(e.types, path[0])
    ensures Follow(e.types, h, v, steps) == Follow(e.types, k, v, steps)
    decreases |steps|
  {
    var u, o, p := e.types, h(v.ref), k(v.ref);
    assert SameObject(e, o, p);
    if steps != [] && steps[0] < |Members(u, o.kind)| {
      var i := steps[0];
      var m := Members(u, o.kind)[i];
      var t := Unwrap(m.declared);
      NoMeansClosureIsClean(u, path);
      assert CleanMember(u, m) && !SecretMember(u, m);
      assert SameGot(e, MemberValue(o, i), MemberValue(p, i));
      if MemberValue(o, i).Got? {
        var x, y := MemberValue(o, i).value, MemberValue(p, i).value;
        assert Fits(u, h, t, x) && Fits(u, k, t, y);
        if x.Ref? {
          var longer := path + [t];
          assert Edge(u, Last(path), t);
          ChainGrows(u, path, t);
          ClearedShowsSame(e, h, k, x, steps[1..], longer);
        } else {
          SameLook(e, h, k, x, y, t);
          FollowFlat(u, h, x, steps[1..]);
          FollowFlat(u, k, y, steps[1..]);
        }
      }
    }
  }

  lemma ChainGrows(u: Universe, path: seq<Type>, t: Type)
    requires Chain(u, path) && Edge(u, Last(path), t)
    ensures Chain(u, path + [t]) && Last(path + [t]) == t && (path + [t])[0] == path[0]
  {
    var longer := path + [t];
    forall i | 0 <= i < |longer| - 1 ensures Edge(u, longer[i], longer[i + 1]) {
      if i < |path| - 1 {
        assert Edge(u, path[i], path[i + 1]);
      }
    }
  }

  lemma SameLook(e: Env, h: Heap, k: Heap, x: Value, y: Value, t: Type)
    requires SameValue(e, x, y) && Fits(e.types, h, t, x) && Fits(e.types, k, t, y) && !x.Ref?
    requires var s := e.types.shape(t);
      !s.text && !s.sensitive && (s.scalar || (!s.unknown && (s.enumerable ==> HasSimpleElements(e.types, t))))
    ensures Look(h, x) == Look(k, y) && !y.Ref?
  {
  }

  lemma FollowFlat(u: Universe, h: Heap, v: Value, steps: seq<nat>)
    requires !v.Ref?
    ensures Follow(u, h, v, steps) == if steps == [] then Look(h, v) else Nothing
  {
  }

  // ----- One value -----

  /** What a collection of scalars holds: no objects, and entries of scalars. */
  predicate Flat(v: Value) {
    match v
    case Entry(key, value) => Flat(key) && Flat(value)
    case Many(_, _) => false
    case Ref(_) => false
    case _ => true
  }

  lemma {:induction false} FittingIsFlat(u: Universe, t: Type, v: Value)
    requires LeadsToSimple(u, t) && ElementFits(u, t, v)
    ensures Flat(v)
    ensures (v.Text? || v.Link?) ==> u.shape(if t.Nullable? then t.underlying else t).text
    decreases t
  {
    var bare := if t.Nullable? then t.underlying else t;
    assert Reaches(u, t, [], bare);
    if v != Null && !u.shape(bare).text && !u.shape(bare).scalar {
      PairLeads(u, t);
      FittingIsFlat(u, bare.key, v.key);
      FittingIsFlat(u, bare.value, v.value);
    }
  }

  /** The elements of a collection of scalars are flat, and texts only where an element type is one. */
  lemma ElementsAreFlat(u: Universe, v: Value, i: nat)
    requires v.Many? && HasSimpleElements(u, v.collection) && ElementsFit(u, v) && i < |v.elements|
    ensures Flat(v.elements[i])
    ensures v.elements[i].Text? || v.elements[i].Link? ==> ElementsNeedShapeMasking(u, v.collection)
  {
    var ts := u.shape(v.collection).elements;
    assert FitsSome(u, ts, v.elements[i]);
    var j :| 0 <= j < |ts| && ElementFits(u, ts[j], v.elements[i]);
    FittingIsFlat(u, ts[j], v.elements[i]);
  }

  lemma {:induction false} FlatShowsSame(u: Universe, h: Heap, k: Heap, v: Value)
    requires Flat(v)
    ensures ShowsSame(u, h, v, k, v)
    decreases v
  {
    if v.Entry? {
      FlatShowsSame(u, h, k, v.key);
      FlatShowsSame(u, h, k, v.value);
    }
  }

  lemma ElementSame(e: Env, h: Heap, k: Heap, a: Value, b: Value)
    requires Faithful(e) && Flat(a) && SameElement(e, a, b)
    ensures SameProcessed(e.types, h, ProcessScalarElement(e, a), k, ProcessScalarElement(e, b))
    ensures ProcessScalarElement(e, a).Processed? && !ProcessScalarElement(e, a).masked ==> a == b
  {
    if a.Link? {
      RenderUriHidesSecretParts(a.uri, b.uri);
    } else if !a.Text? {
      FlatShowsSame(e.types, h, k, a);
    }
  }

  lemma OneMoreElement(u: Universe, h: Heap, k: Heap, x: seq<Out>, y: seq<Out>, a: Out, b: Out)
    requires |x| == |y| && SameOut(u, h, a, k, b)
    requires forall i :: 0 <= i < |x| ==> SameOut(u, h, x[i], k, y[i])
    ensures forall i :: 0 <= i < |x| + 1 ==> SameOut(u, h, (x + [a])[i], k, (y + [b])[i])
  {
  }

  lemma {:induction false} FirstElementsSame(e: Env, h: Heap, k: Heap, a: seq<Value>, b: seq<Value>, n: nat)
    requires Faithful(e) && |a| == |b| && n <= |a|
    requires forall i :: 0 <= i < |a| ==> Flat(a[i]) && SameElement(e, a[i], b[i])
    ensures ProcessFirst(e, a, n).ElementsThrew? == ProcessFirst(e, b, n).ElementsThrew?
    ensures ProcessFirst(e, a, n).Elements? ==>
      var (x, y) := (ProcessFirst(e, a, n), ProcessFirst(e, b, n));
      && x.changed == y.changed && |x.outs| == |y.outs| == n
      && (forall i :: 0 <= i < n ==> SameOut(e.types, h, x.outs[i], k, y.outs[i]))
      && (!x.changed ==> a[..n] == b[..n])
  {
    if n > 0 {
      FirstElementsSame(e, h, k, a, b, n - 1);
      ElementSame(e, h, k, a[n - 1], b[n - 1]);
      var x, y := ProcessFirst(e, a, n - 1), ProcessFirst(e, b, n - 1);
      var p, q := ProcessScalarElement(e, a[n - 1]), ProcessScalarElement(e, b[n - 1]);
      if x.Elements? && p.Processed? {
        OneMoreElement(e.types, h, k, x.outs, y.outs, p.out, q.out);
      }
      assert a[..n] == a[..n - 1] + [a[n - 1]] && b[..n] == b[..n - 1] + [b[n - 1]];
    }
  }

  lemma CollectionSame(e: Env, h: Heap, k: Heap, a: Value, b: Value)
    requires Alike(e, h, k) && SameValue(e, a, b) && a.Many?
    requires ElementsFit(e.types, a) && ElementsFit(e.types, b)
    requires !e.types.shape(a.collection).sensitive && HasSimpleElements(e.types, a.collection)
    ensures ElementsNeedShapeMasking(e.types, a.collection) ==>
      SameProcessed(e.types, h, ProcessScalarElements(e, a), k, ProcessScalarElements(e, b))
    ensures !ElementsNeedShapeMasking(e.types, a.collection) ==> ShowsSame(e.types, h, a, k, b)
  {
    var n := |a.elements|;
    forall i | 0 <= i < n
      ensures Flat(a.elements[i]) && ShowsSame(e.types, h, a.elements[i], k, a.elements[i])
      ensures !ElementsNeedShapeMasking(e.types, a.collection) ==> a.elements[i] == b.elements[i]
    {
      ElementsAreFlat(e.types, a, i);
      FlatShowsSame(e.types, h, k, a.elements[i]);
      assert SameElement(e, a.elements[i], b.elements[i]);
    }
    FirstElementsSame(e, h, k, a.elements, b.elements, n);
    assert a.elements[..n] == a.elements && b.elements[..n] == b.elements;
  }

  lemma FlatSame(e: Env, h: Heap, k: Heap, a: Value, b: Value)
    requires Alike(e, h, k) && SameValue(e, a, b) && ElementsFit(e.types, a) && ElementsFit(e.types, b)
    ensures ProcessFlat(e, h, a).Some? == ProcessFlat(e, k, b).Some?
    ensures ProcessFlat(e, h, a).Some? ==>
      SameProcessed(e.types, h, ProcessFlat(e, h, a).value, k, ProcessFlat(e, k, b).value)
  {
    match a {
      case Link(_) => RenderUriHidesSecretParts(a.uri, b.uri);
      case Many(t, elements) =>
        HasScalarElementsIff(e.types, t);
        if !e.types.shape(t).sensitive && HasSimpleElements(e.types, t) {
          CollectionSame(e, h, k, a, b);
        }
      case Ref(r) =>
        var t := h(r).kind;
        assert SameObject(e, h(r), k(r));
        if !e.types.shape(t).sensitive && !NeedsProcessorRendering(e.types, t) {
          forall steps: seq<nat> ensures Follow(e.types, h, a, steps) == Follow(e.types, k, b, steps) {
            ClearedShowsSame(e, h, k, a, steps, [t]);
          }
        }
      case _ =>
    }
  }

  ghost predicate SameResult(u: Universe, h: Heap, a: (Processed, int), k: Heap, b: (Processed, int)) {
    SameProcessed(u, h, a.0, k, b.0) && a.1 == b.1
  }

  lemma {:induction false} AnySame(e: Env, h: Heap, k: Heap, a: Value, b: Value, depth: nat, budget: int)
    requires Alike(e, h, k) && SameValue(e, a, b) && ElementsFit(e.types, a) && ElementsFit(e.types, b)
    requires depth <= MAX_RENDER_DEPTH + 1
    ensures SameResult(e.types, h, ProcessAny(e, h, a, depth, budget), k, ProcessAny(e, k, b, depth, budget))
    decreases MAX_RENDER_DEPTH + 1 - depth, 1, 0
  {
    FlatSame(e, h, k, a, b);
    if ProcessFlat(e, h, a).None? && depth <= MAX_RENDER_DEPTH && CanConsume(budget) {
      assert SameObject(e, h(a.ref), k(b.ref));
      MembersSame(e, h, k, a.ref, 0, depth, budget - 1);
    }
  }

  lemma {:induction false} MemberSame(e: Env, h: Heap, k: Heap, r: nat, i: nat, depth: nat, budget: int)
    requires Alike(e, h, k)
    requires !e.types.shape(h(r).kind).sensitive && h(r).kind == k(r).kind
    requires i < |RenderableProperties(e.types, h(r).kind)| && depth <= MAX_RENDER_DEPTH
    ensures SameResult(e.types, h, RenderMember(e, h, h(r), i, depth, budget), k, RenderMember(e, k, k(r), i, depth, budget))
    decreases MAX_RENDER_DEPTH + 1 - depth, 0, 0
  {
    assert SameObject(e, h(r), k(r));
    assert Members(e.types, h(r).kind)[i] == RenderableProperties(e.types, h(r).kind)[i];
    if !SecretMember(e.types, Members(e.types, h(r).kind)[i]) {
      assert SameGot(e, MemberValue(h(r), i), MemberValue(k(r), i));
      if MemberValue(h(r), i).Got? {
        AnySame(e, h, k, MemberValue(h(r), i).value, MemberValue(k(r), i).value, depth + 1, budget);
      }
    }
  }

  ghost predicate SameMembers(u: Universe, h: Heap, a: (MembersOut, int), k: Heap, b: (MembersOut, int)) {
    && a.1 == b.1
    && (if a.0.MembersThrew? then b.0.MembersThrew?
        else b.0.MembersOut? && SameOut(u, h, Rendered(a.0.members, a.0.truncated), k, Rendered(b.0.members, b.0.truncated)))
  }

  lemma MemberThenRest(u: Universe, h: Heap, k: Heap, name: string, a: Out, b: Out,
                       x: seq<Rendering>, y: seq<Rendering>, truncated: bool)
    requires SameOut(u, h, a, k, b) && SameOut(u, h, Rendered(x, truncated), k, Rendered(y, truncated))
    ensures SameOut(u, h, Rendered([Rendering(name, a)] + x, truncated), k, Rendered([Rendering(name, b)] + y, truncated))
  {
  }

  lemma {:induction false} MembersSame(e: Env, h: Heap, k: Heap, r: nat, i: nat, depth: nat, budget: int)
    requires Alike(e, h, k)
    requires !e.types.shape(h(r).kind).sensitive && h(r).kind == k(r).kind
    requires i <= |RenderableProperties(e.types, h(r).kind)| && depth <= MAX_RENDER_DEPTH
    ensures SameMembers(e.types, h, RenderMembers(e, h, h(r), i, depth, budget), k, RenderMembers(e, k, k(r), i, depth, budget))
    decreases MAX_RENDER_DEPTH + 1 - depth, 0, |RenderableProperties(e.types, h(r).kind)| - i + 1
  {
    if i < |RenderableProperties(e.types, h(r).kind)| && i < MAX_MEMBERS_PER_OBJECT && CanConsume(budget) {
      MemberSame(e, h, k, r, i, depth, budget - 1);
      var (p, left) := RenderMember(e, h, h(r), i, depth, budget - 1);
      var (q, _) := RenderMember(e, k, k(r), i, depth, budget - 1);
      if p.Processed? {
        MembersSame(e, h, k, r, i + 1, depth, left);
        var (x, _) := RenderMembers(e, h, h(r), i + 1, depth, left);
        var (y, _) := RenderMembers(e, k, k(r), i + 1, depth, left);
        if x.MembersOut? {
          var name := RenderableProperties(e.types, h(r).kind)[i].name;
          MemberThenRest(e.types, h, k, name, p.out, q.out, x.members, y.members, x.truncated);
        }
      }
    }
  }

  // ----- One record -----

  ghost predicate SameAttributes(u: Universe, h: Heap, a: seq<Attribute>, k: Heap, b: seq<Attribute>) {
    && |a| == |b|
    && forall i :: 0 <= i < |a| ==> a[i].key == b[i].key && SameOut(u, h, a[i].out, k, b[i].out)
  }

  ghost predicate SameRecord(u: Universe, h: Heap, a: Record, k: Heap, b: Record) {
    && SameAttributes(u, h, a.attributes, k, b.attributes)
    && a.seen == b.seen && a.template == b.template && a.anyMasked == b.anyMasked
    && a.valueError == b.valueError && a.budget == b.budget
  }

  /** Two record states of one shape. */
  ghost predicate SamePairs(e: Env, a: seq<Pair>, b: seq<Pair>) {
    && |a| == |b|
    && forall i :: 0 <= i < |a| ==>
         SamePair(e, a[i], b[i]) && ElementsFit(e.types, a[i].value) && ElementsFit(e.types, b[i].value)
  }

  lemma KeyedSame(e: Env, h: Heap, k: Heap, a: Pair, b: Pair, budget: int)
    requires Alike(e, h, k) && SamePair(e, a, b) && ElementsFit(e.types, a.value) && ElementsFit(e.types, b.value)
    requires a.key != ORIGINAL_FORMAT_KEY
    ensures SameResult(e.types, h, ProcessKeyed(e, h, a.key, a.value, budget), k, ProcessKeyed(e, k, b.key, b.value, budget))
  {
    if !e.types.denied(a.key) {
      AnySame(e, h, k, a.value, b.value, 0, budget);
    }
  }

  lemma {:induction false} PairsSame(e: Env, h: Heap, k: Heap, a: seq<Pair>, b: seq<Pair>, n: nat)
    requires Alike(e, h, k)
    requires n <= |a| && SamePairs(e, a, b)
    ensures SameRecord(e.types, h, AddPairs(e, h, a, n), k, AddPairs(e, k, b, n))
  {
    if n > 0 {
      PairsSame(e, h, k, a, b, n - 1);
      assert SamePair(e, a[n - 1], b[n - 1]);
      if a[n - 1].key != ORIGINAL_FORMAT_KEY {
        KeyedSame(e, h, k, a[n - 1], b[n - 1], AddPairs(e, h, a, n - 1).budget);
      }
    }
  }

  /** The sinks cannot tell the two records apart, and neither can what the budget has left. */
  lemma MaskingIsNonInterfering(e: Env, h: Heap, k: Heap, a: seq<Pair>, b: seq<Pair>)
    requires Alike(e, h, k)
    requires SamePairs(e, a, b)
    ensures var (x, y) := (Process(e, h, a), Process(e, k, b));
      && SameAttributes(e.types, h, x.attributes, k, y.attributes)
      && x.anyMasked == y.anyMasked && x.template == y.template
    ensures AddPairs(e, h, a, |a|).budget == AddPairs(e, k, b, |b|).budget
  {
    PairsSame(e, h, k, a, b, |a|);
  }
}
