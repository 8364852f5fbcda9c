/**
  The type-shape analysis of the log masking core: does a type's graph of public members hold
  anything the processor has to render itself? The walk is a depth-limited, path-based search over a
  graph that may have cycles and may be infinite (a generic type may nest itself for ever).
 */
module TypeGraph {

  const MAX_GRAPH_DEPTH := 3

  /** A declared type. A pair is a `KeyValuePair`, a nullable the value type it wraps. */
  datatype Type = Named(id: nat) | Pair(key: Type, value: Type) | Nullable(underlying: Type)

  /** A public property or field. `marked` covers the attribute on it, on what it overrides, or on its contract. */
  datatype Member = Member(name: string, declared: Type, marked: bool)

  /**
    What reflection says about a type. `text` is string or Uri; `unknown` is object, an interface or an
    abstract class; `elements` are the T of every IEnumerable<T> it implements.
   */
  datatype Shape = Shape(
    text: bool,
    scalar: bool,
    sensitive: bool,
    unknown: bool,
    enumerable: bool,
    elements: seq<Type>,
    properties: seq<Member>,
    propertiesFail: bool,
    fields: seq<Member>,
    walkFails: bool)

  /** The loaded types and the key deny-list. */
  datatype Universe = Universe(shape: Type -> Shape, denied: string -> bool)

  function Unwrap(t: Type): (u: Type) {
    if t.Nullable? then t.underlying else t
  }

  /** A failure to list the properties answers with no property. */
  function RenderableProperties(u: Universe, t: Type): (ms: seq<Member>) {
    if u.shape(t).propertiesFail then [] else u.shape(t).properties
  }

  function Members(u: Universe, t: Type): (ms: seq<Member>) {
    RenderableProperties(u, t) + u.shape(t).fields
  }

  predicate IsSensitiveMember(u: Universe, m: Member) {
    m.marked || u.shape(Unwrap(m.declared)).sensitive
  }

  predicate IsScalarElement(u: Universe, t: Type)
    decreases t
  {
    var element := Unwrap(t);
    !u.shape(element).sensitive
    && (u.shape(element).scalar
        || (element.Pair? && IsScalarElement(u, element.key) && IsScalarElement(u, element.value)))
  }

  predicate HasScalarElements(u: Universe, t: Type) {
    u.shape(t).elements != [] && forall i :: 0 <= i < |u.shape(t).elements| ==> IsScalarElement(u, u.shape(t).elements[i])
  }

  // ----- What the elements of a collection lead to -----

  /** The side taken of a pair. */
  datatype Side = Keys | Values

  /** What an element type leads to: itself without a nullable around it, and from a pair on to either side. */
  predicate Reaches(u: Universe, t: Type, sides: seq<Side>, r: Type)
    decreases |sides|
  {
    var bare := if t.Nullable? then t.underlying else t;
    if sides == [] then r == bare
    else
      && bare.Pair? && !u.shape(bare).scalar
      && Reaches(u, if sides[0].Keys? then bare.key else bare.value, sides[1..], r)
  }

  predicate IsSimple(u: Universe, t: Type) {
    !u.shape(t).sensitive && (u.shape(t).scalar || t.Pair?)
  }

  ghost predicate LeadsToSimple(u: Universe, t: Type) {
    forall sides: seq<Side>, r: Type :: Reaches(u, t, sides, r) ==> IsSimple(u, r)
  }

  /** There are element types, nothing they lead to is sensitive, and every way on ends in scalars. */
  ghost predicate HasSimpleElements(u: Universe, t: Type) {
    u.shape(t).elements != [] && forall i :: 0 <= i < |u.shape(t).elements| ==> LeadsToSimple(u, u.shape(t).elements[i])
  }

  lemma {:induction false} ScalarElementIff(u: Universe, t: Type)
    ensures IsScalarElement(u, t) <==> LeadsToSimple(u, t)
    decreases t
  {
    var bare := if t.Nullable? then t.underlying else t;
    assert Reaches(u, t, [], bare);
    if bare.Pair? && !u.shape(bare).scalar {
      ScalarElementIff(u, bare.key);
      ScalarElementIff(u, bare.value);
      PairLeads(u, t);
    }
  }

  /** From a pair every way on goes through one of its sides. */
  lemma PairLeads(u: Universe, t: Type)
    requires var bare := if t.Nullable? then t.underlying else t; bare.Pair? && !u.shape(bare).scalar
    ensures var bare := if t.Nullable? then t.underlying else t;
      LeadsToSimple(u, t) <==> IsSimple(u, bare) && LeadsToSimple(u, bare.key) && LeadsToSimple(u, bare.value)
  {
    var bare := if t.Nullable? then t.underlying else t;
    forall sides: seq<Side>, r: Type
      ensures Reaches(u, bare.key, sides, r) ==> Reaches(u, t, [Keys] + sides, r)
      ensures Reaches(u, bare.value, sides, r) ==> Reaches(u, t, [Values] + sides, r)
    {
      assert ([Keys] + sides)[1..] == sides && ([Values] + sides)[1..] == sides;
    }
    assert Reaches(u, t, [], bare);
    if IsSimple(u, bare) && LeadsToSimple(u, bare.key) && LeadsToSimple(u, bare.value) {
      forall sides: seq<Side>, r: Type | Reaches(u, t, sides, r) ensures IsSimple(u, r) {
        if sides != [] {
          assert Reaches(u, if sides[0].Keys? then bare.key else bare.value, sides[1..], r);
        }
      }
    }
    if LeadsToSimple(u, t) {
      forall sides: seq<Side>, r: Type | Reaches(u, bare.key, sides, r) ensures IsSimple(u, r) {
        assert Reaches(u, t, [Keys] + sides, r);
      }
      forall sides: seq<Side>, r: Type | Reaches(u, bare.value, sides, r) ensures IsSimple(u, r) {
        assert Reaches(u, t, [Values] + sides, r);
      }
    }
  }

  /** A collection counts as one of scalars exactly when its element types lead to nothing else. */
  lemma HasScalarElementsIff(u: Universe, t: Type)
    ensures HasScalarElements(u, t) <==> HasSimpleElements(u, t)
  {
    forall i | 0 <= i < |u.shape(t).elements|
      ensures IsScalarElement(u, u.shape(t).elements[i]) <==> LeadsToSimple(u, u.shape(t).elements[i])
    {
      ScalarElementIff(u, u.shape(t).elements[i]);
    }
  }

  // ----- The walk, as a value -----

  predicate MemberNeedsRendering(u: Universe, t: Type, depth: nat, visiting: set<Type>)
    requires depth <= MAX_GRAPH_DEPTH
    decreases MAX_GRAPH_DEPTH + 1 - depth, 0
  {
    if u.shape(t).text then true
    else if u.shape(t).scalar then false
    else if u.shape(t).unknown then true
    else if u.shape(t).enumerable then !HasScalarElements(u, t)
    else u.shape(t).sensitive || AnalyzeGraph(u, t, depth + 1, visiting)
  }

  predicate MemberStops(u: Universe, m: Member, depth: nat, visiting: set<Type>)
    requires depth <= MAX_GRAPH_DEPTH
    decreases MAX_GRAPH_DEPTH + 1 - depth, 1
  {
    IsSensitiveMember(u, m) || u.denied(m.name) || MemberNeedsRendering(u, Unwrap(m.declared), depth, visiting)
  }

  predicate AnalyzeGraph(u: Universe, t: Type, depth: nat, visiting: set<Type>)
    requires depth <= MAX_GRAPH_DEPTH + 1
    decreases MAX_GRAPH_DEPTH + 1 - depth, 2
  {
    if depth > MAX_GRAPH_DEPTH then true
    else if t in visiting then false
    else
      || u.shape(t).walkFails
      || exists i :: 0 <= i < |Members(u, t)| && MemberStops(u, Members(u, t)[i], depth, visiting + {t})
  }

  predicate NeedsProcessorRendering(u: Universe, t: Type) {
    AnalyzeGraph(u, t, 0, {})
  }

  // ----- What the walk is for -----

  /**
    The member's own declaration gives the processor nothing to mask: no mark, no denied name, no text, nothing whose
    content is unknown, and no collection of anything but scalars.
   */
  ghost predicate CleanMember(u: Universe, m: Member) {
    var t := if m.declared.Nullable? then m.declared.underlying else m.declared;
    && !m.marked && !u.denied(m.name) && !u.shape(t).sensitive && !u.shape(t).text
    && (u.shape(t).scalar || (!u.shape(t).unknown && (u.shape(t).enumerable ==> HasSimpleElements(u, t))))
  }

  /** Every member the analysis sees is clean. */
  ghost predicate Clean(u: Universe, t: Type) {
    !u.shape(t).walkFails && forall i :: 0 <= i < |Members(u, t)| ==> CleanMember(u, Members(u, t)[i])
  }

  /** A member whose own graph of members matters. */
  predicate Walked(u: Universe, t: Type) {
    !u.shape(t).text && !u.shape(t).scalar && !u.shape(t).unknown && !u.shape(t).enumerable
  }

  predicate Edge(u: Universe, from: Type, to: Type) {
    Walked(u, to) && exists i :: 0 <= i < |Members(u, from)| && Unwrap(Members(u, from)[i].declared) == to
  }

  /** A chain of public members, each the type of a member of the one before; it may revisit types. */
  predicate Chain(u: Universe, path: seq<Type>) {
    path != [] && forall i :: 0 <= i < |path| - 1 ==> Edge(u, path[i], path[i + 1])
  }

  function Last(path: seq<Type>): (t: Type)
    requires path != []
  {
    path[|path| - 1]
  }

  predicate Distinct(path: seq<Type>) {
    forall i, j :: 0 <= i < j < |path| ==> path[i] != path[j]
  }

  predicate Avoids(path: seq<Type>, visiting: set<Type>) {
    forall i :: 0 <= i < |path| ==> path[i] !in visiting
  }

  /** A member stops the walk when it is not clean itself, or when the walk of its type says yes. */
  lemma StopsIff(u: Universe, m: Member, depth: nat, visiting: set<Type>)
    requires depth <= MAX_GRAPH_DEPTH
    ensures MemberStops(u, m, depth, visiting) <==>
      || !CleanMember(u, m)
      || (Walked(u, Unwrap(m.declared)) && AnalyzeGraph(u, Unwrap(m.declared), depth + 1, visiting))
  {
    var t := Unwrap(m.declared);
    HasScalarElementsIff(u, t);
    assert MemberNeedsRendering(u, t, depth, visiting) ==
      if u.shape(t).text then true
      else if u.shape(t).scalar then false
      else if u.shape(t).unknown then true
      else if u.shape(t).enumerable then !HasScalarElements(u, t)
      else u.shape(t).sensitive || AnalyzeGraph(u, t, depth + 1, visiting);
  }

  lemma ChainTail(u: Universe, path: seq<Type>)
    requires Chain(u, path) && |path| > 1
    ensures Chain(u, path[1..]) && Edge(u, path[0], path[1]) && Last(path[1..]) == Last(path)
  {
    assert Edge(u, path[0], path[0 + 1]);
    forall i | 0 <= i < |path[1..]| - 1 ensures Edge(u, path[1..][i], path[1..][i + 1]) {
      assert Edge(u, path[i + 1], path[i + 1 + 1]);
    }
  }

  /** A walk that answers no has looked at every type on every simple chain, within the depth limit. */
  lemma {:induction false} NoMeansSimpleChainsAreClean(u: Universe, path: seq<Type>, depth: nat, visiting: set<Type>)
    requires Chain(u, path) && Distinct(path) && Avoids(path, visiting)
    requires depth <= MAX_GRAPH_DEPTH + 1 && !AnalyzeGraph(u, path[0], depth, visiting)
    ensures depth + |path| - 1 <= MAX_GRAPH_DEPTH && Clean(u, Last(path))
    decreases |path|
  {
    var t := path[0];
    forall i | 0 <= i < |Members(u, t)| ensures CleanMember(u, Members(u, t)[i]) {
      assert !MemberStops(u, Members(u, t)[i], depth, visiting + {t});
      StopsIff(u, Members(u, t)[i], depth, visiting + {t});
    }
    if |path| > 1 {
      ChainTail(u, path);
      var i :| 0 <= i < |Members(u, t)| && Unwrap(Members(u, t)[i].declared) == path[1];
      assert !MemberStops(u, Members(u, t)[i], depth, visiting + {t});
      StopsIff(u, Members(u, t)[i], depth, visiting + {t});
      NoMeansSimpleChainsAreClean(u, path[1..], depth + 1, visiting + {t});
    }
  }

  /** Any chain can be cut down to one without a repeated type between the same ends. */
  lemma {:induction false} CutLoops(u: Universe, path: seq<Type>) returns (simple: seq<Type>)
    requires Chain(u, path)
    ensures Chain(u, simple) && Distinct(simple) && simple[0] == path[0] && Last(simple) == Last(path)
    decreases |path|
  {
    if Distinct(path) {
      return path;
    }
    var i, j :| 0 <= i < j < |path| && path[i] == path[j];
    var shorter := path[..i] + path[j..];
    forall k | 0 <= k < |shorter| - 1 ensures Edge(u, shorter[k], shorter[k + 1]) {
      if k < i {
        assert Edge(u, path[k], path[k + 1]);
      } else {
        assert Edge(u, path[k - i + j], path[k - i + j + 1]);
      }
    }
    simple := CutLoops(u, shorter);
  }

  /**
    Soundness of the walk. When it answers no, nothing that needs rendering is reachable by any chain
    of public members, however long and through however many cycles.
   */
  lemma NoMeansClosureIsClean(u: Universe, path: seq<Type>)
    requires Chain(u, path) && !NeedsProcessorRendering(u, path[0])
    ensures Clean(u, Last(path))
  {
    var simple := CutLoops(u, path);
    NoMeansSimpleChainsAreClean(u, simple, 0, {});
  }

  // ----- Exactly when the walk answers yes -----

  /** The walk's own evidence: a chain to something unclean, or one that goes four members deep. */
  ghost predicate Evidence(u: Universe, path: seq<Type>, depth: nat, visiting: set<Type>) {
    && Chain(u, path)
    && Distinct(path[..|path| - 1]) && Avoids(path[..|path| - 1], visiting)
    && (depth + |path| - 1 == 4
        || (Distinct(path) && Avoids(path, visiting) && !Clean(u, Last(path))))
  }

  lemma {:induction false} YesHasEvidence(u: Universe, t: Type, depth: nat, visiting: set<Type>) returns (path: seq<Type>)
    requires depth <= MAX_GRAPH_DEPTH + 1 && AnalyzeGraph(u, t, depth, visiting)
    ensures Evidence(u, path, depth, visiting) && path[0] == t
    decreases MAX_GRAPH_DEPTH + 1 - depth
  {
    path := [t];
    if depth <= MAX_GRAPH_DEPTH && Clean(u, t) {
      var i :| 0 <= i < |Members(u, t)| && MemberStops(u, Members(u, t)[i], depth, visiting + {t});
      var next := Unwrap(Members(u, t)[i].declared);
      assert CleanMember(u, Members(u, t)[i]);
      StopsIff(u, Members(u, t)[i], depth, visiting + {t});
      var rest := YesHasEvidence(u, next, depth + 1, visiting + {t});
      path := [t] + rest;
      assert Edge(u, t, next);
      EvidenceGrows(u, t, rest, depth, visiting);
    }
  }

  lemma EvidenceGrows(u: Universe, t: Type, rest: seq<Type>, depth: nat, visiting: set<Type>)
    requires Evidence(u, rest, depth + 1, visiting + {t}) && Edge(u, t, rest[0]) && t !in visiting
    ensures Evidence(u, [t] + rest, depth, visiting)
  {
    var path := [t] + rest;
    forall k | 0 <= k < |path| - 1 ensures Edge(u, path[k], path[k + 1]) {
      if k > 0 {
        assert Edge(u, rest[k - 1], rest[k - 1 + 1]);
      }
    }
    assert path[..|path| - 1] == [t] + rest[..|rest| - 1];
    assert Avoids(rest[..|rest| - 1], visiting + {t});
  }

  /** In its own terms: the answer is yes exactly when there is evidence from the type. */
  lemma NeedsRenderingIffEvidence(u: Universe, t: Type)
    ensures NeedsProcessorRendering(u, t) <==> exists path :: Evidence(u, path, 0, {}) && path[0] == t
  {
    if NeedsProcessorRendering(u, t) {
      var path := YesHasEvidence(u, t, 0, {});
    }
    if exists path :: Evidence(u, path, 0, {}) && path[0] == t {
      var path :| Evidence(u, path, 0, {}) && path[0] == t;
      EvidenceMeansYes(u, path, 0, {});
    }
  }

  lemma {:induction false} EvidenceMeansYes(u: Universe, path: seq<Type>, depth: nat, visiting: set<Type>)
    requires Evidence(u, path, depth, visiting) && depth <= MAX_GRAPH_DEPTH + 1
    ensures AnalyzeGraph(u, path[0], depth, visiting)
    decreases |path|
  {
    var t := path[0];
    if |path| == 1 {
      if depth <= MAX_GRAPH_DEPTH && !u.shape(t).walkFails {
        var i :| 0 <= i < |Members(u, t)| && !CleanMember(u, Members(u, t)[i]);
        StopsIff(u, Members(u, t)[i], depth, visiting + {t});
      }
    } else if depth <= MAX_GRAPH_DEPTH {
      ChainTail(u, path);
      var rest := path[1..];
      assert path[..|path| - 1][0] == t;
      assert rest[..|rest| - 1] == path[..|path| - 1][1..];
      EvidenceMeansYes(u, rest, depth + 1, visiting + {t});
      var i :| 0 <= i < |Members(u, t)| && Unwrap(Members(u, t)[i].declared) == path[1];
      StopsIff(u, Members(u, t)[i], depth, visiting + {t});
    }
  }

  // ----- Where the analysis does not fail closed -----

  /** Properties that cannot be listed are taken as none: such a type passes whatever properties it has. */
  lemma UnlistedPropertiesPass(u: Universe, t: Type)
    requires u.shape(t).propertiesFail && !u.shape(t).walkFails && u.shape(t).fields == []
    ensures !NeedsProcessorRendering(u, t)
  {
    assert Members(u, t) == [];
  }

  /** With the properties listed, the members seen are all the public members there are. */
  lemma ListedMembersAreAll(u: Universe, path: seq<Type>, m: Member)
    requires Chain(u, path) && !NeedsProcessorRendering(u, path[0])
    requires m in u.shape(Last(path)).properties || m in u.shape(Last(path)).fields
    requires !u.shape(Last(path)).propertiesFail
    ensures CleanMember(u, m)
  {
    NoMeansClosureIsClean(u, path);
    var ms := Members(u, Last(path));
    assert ms == u.shape(Last(path)).properties + u.shape(Last(path)).fields;
    assert m in ms;
  }

  /** The universe with other properties on one type, whether or not they can be listed. */
  function WithProperties(u: Universe, t: Type, properties: seq<Member>): (v: Universe) {
    u.(shape := x => if x == t then u.shape(t).(properties := properties) else u.shape(x))
  }

  ghost predicate AllClean(u: Universe, members: seq<Member>) {
    forall m :: m in members ==> CleanMember(u, m)
  }

  ghost predicate AlikeButProperties(u: Universe, v: Universe) {
    v.denied == u.denied && forall t: Type :: v.shape(t) == u.shape(t).(properties := v.shape(t).properties)
  }

  /** Everything the analysis reads is the same: only properties that cannot be listed may differ. */
  ghost predicate SeenAlike(u: Universe, v: Universe) {
    && AlikeButProperties(u, v)
    && forall t: Type :: !u.shape(t).propertiesFail ==> v.shape(t).properties == u.shape(t).properties
  }

  lemma {:induction false} ScalarsAlike(u: Universe, v: Universe, t: Type)
    requires AlikeButProperties(u, v)
    ensures IsScalarElement(v, t) == IsScalarElement(u, t)
    decreases t
  {
    var element := Unwrap(t);
    assert v.shape(element) == u.shape(element).(properties := v.shape(element).properties);
    if element.Pair? {
      ScalarsAlike(u, v, element.key);
      ScalarsAlike(u, v, element.value);
    }
  }

  lemma ElementsAlike(u: Universe, v: Universe, t: Type)
    requires AlikeButProperties(u, v)
    ensures HasScalarElements(v, t) == HasScalarElements(u, t)
  {
    assert v.shape(t) == u.shape(t).(properties := v.shape(t).properties);
    forall i | 0 <= i < |u.shape(t).elements|
      ensures IsScalarElement(v, u.shape(t).elements[i]) == IsScalarElement(u, u.shape(t).elements[i])
    {
      ScalarsAlike(u, v, u.shape(t).elements[i]);
    }
  }

  lemma {:induction false} WalksAlike(u: Universe, v: Universe, t: Type, depth: nat, visiting: set<Type>)
    requires SeenAlike(u, v) && depth <= MAX_GRAPH_DEPTH + 1
    ensures AnalyzeGraph(v, t, depth, visiting) == AnalyzeGraph(u, t, depth, visiting)
    decreases MAX_GRAPH_DEPTH + 1 - depth
  {
    assert v.shape(t) == u.shape(t).(properties := v.shape(t).properties);
    assert Members(v, t) == Members(u, t);
    if depth <= MAX_GRAPH_DEPTH {
      forall i | 0 <= i < |Members(u, t)|
        ensures MemberStops(v, Members(u, t)[i], depth, visiting + {t}) == MemberStops(u, Members(u, t)[i], depth, visiting + {t})
      {
        var m := Members(u, t)[i];
        var d := Unwrap(m.declared);
        assert v.shape(d) == u.shape(d).(properties := v.shape(d).properties);
        ElementsAlike(u, v, d);
        WalksAlike(u, v, d, depth + 1, visiting + {t});
      }
    }
  }

  /**
    For a type that passes: whatever its properties are, passing means they are clean, exactly when they
    can be listed.
   */
  lemma PassingMeansCleanIff(u: Universe, t: Type)
    requires !NeedsProcessorRendering(u, t)
    ensures (forall ps: seq<Member> :: NeedsProcessorRendering(WithProperties(u, t, ps), t) || AllClean(u, ps))
       <==> !u.shape(t).propertiesFail
  {
    if u.shape(t).propertiesFail {
      var marked := [Member("", t, true)];
      assert marked[0] in marked && !AllClean(u, marked);
      WalksAlike(u, WithProperties(u, t, marked), t, 0, {});
    } else {
      forall ps: seq<Member> | !NeedsProcessorRendering(WithProperties(u, t, ps), t) ensures AllClean(u, ps) {
        PassedPropertiesAreClean(u, t, ps);
      }
    }
  }

  lemma PassedPropertiesAreClean(u: Universe, t: Type, ps: seq<Member>)
    requires !u.shape(t).propertiesFail && !NeedsProcessorRendering(WithProperties(u, t, ps), t)
    ensures AllClean(u, ps)
  {
    var v := WithProperties(u, t, ps);
    forall m | m in ps ensures CleanMember(u, m) {
      ListedMembersAreAll(v, [t], m);
      ElementsAlike(u, v, Unwrap(m.declared));
      HasScalarElementsIff(u, Unwrap(m.declared));
      HasScalarElementsIff(v, Unwrap(m.declared));
    }
  }

  // ----- The walk as it runs: one mutable set for the types on the current path -----

  class TypeSet {
    var types: set<Type>

    constructor ()
      ensures types == {}
    {
      types := {};
    }

    method Add(t: Type) returns (added: bool)
      modifies this
      ensures added == (t !in old(types)) && types == old(types) + {t}
    {
      added := t !in types;
      types := types + {t};
    }

    method Remove(t: Type)
      modifies this
      ensures types == old(types) - {t}
    {
      types := types - {t};
    }
  }

  method Analyze(u: Universe, t: Type, depth: nat, visiting: TypeSet) returns (needs: bool)
    requires depth <= MAX_GRAPH_DEPTH + 1
    modifies visiting
    ensures needs == AnalyzeGraph(u, t, depth, old(visiting.types))
    ensures visiting.types == old(visiting.types)
    decreases MAX_GRAPH_DEPTH + 1 - depth, 2
  {
    if depth > MAX_GRAPH_DEPTH {
      return true;
    }
    var added := visiting.Add(t);
    if !added {
      assert visiting.types == old(visiting.types);
      return false;
    }
    if u.shape(t).walkFails {
      needs := true;
    } else {
      needs := AnalyzeMembers(u, t, depth, visiting);
    }
    visiting.Remove(t);
  }

  /** The two loops, over the properties and then the fields, up to the first member that decides. */
  method AnalyzeMembers(u: Universe, t: Type, depth: nat, visiting: TypeSet) returns (needs: bool)
    requires depth <= MAX_GRAPH_DEPTH
    modifies visiting
    ensures needs == exists i :: 0 <= i < |Members(u, t)| && MemberStops(u, Members(u, t)[i], depth, old(visiting.types))
    ensures visiting.types == old(visiting.types)
    decreases MAX_GRAPH_DEPTH + 1 - depth, 1
  {
    ghost var path := visiting.types;
    var properties, fields := RenderableProperties(u, t), u.shape(t).fields;
    for n := 0 to |properties|
      invariant visiting.types == path
      invariant forall i :: 0 <= i < n ==> !MemberStops(u, Members(u, t)[i], depth, path)
    {
      assert Members(u, t)[n] == properties[n];
      var stops := AnalyzeMember(u, properties[n], depth, visiting);
      if stops {
        return true;
      }
    }
    for n := 0 to |fields|
      invariant visiting.types == path
      invariant forall i :: 0 <= i < |properties| + n ==> !MemberStops(u, Members(u, t)[i], depth, path)
    {
      assert Members(u, t)[|properties| + n] == fields[n];
      var stops := AnalyzeMember(u, fields[n], depth, visiting);
      if stops {
        return true;
      }
    }
    return false;
  }

  method AnalyzeMember(u: Universe, m: Member, depth: nat, visiting: TypeSet) returns (stops: bool)
    requires depth <= MAX_GRAPH_DEPTH
    modifies visiting
    ensures stops == MemberStops(u, m, depth, old(visiting.types))
    ensures visiting.types == old(visiting.types)
    decreases MAX_GRAPH_DEPTH + 1 - depth, 0
  {
    var t := Unwrap(m.declared);
    if IsSensitiveMember(u, m) || u.denied(m.name) || u.shape(t).text {
      return true;
    }
    if u.shape(t).scalar {
      return false;
    }
    if u.shape(t).unknown || u.shape(t).enumerable {
      return u.shape(t).unknown || !HasScalarElements(u, t);
    }
    if u.shape(t).sensitive {
      return true;
    }
    stops := Analyze(u, t, depth + 1, visiting);
  }
}
