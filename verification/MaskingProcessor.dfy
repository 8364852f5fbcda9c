/**
  The masking core as it runs: lists that grow, a budget that is counted down, and loops over members.
  Each method is proved against its function in `Masking`.
 */
module MaskingProcessor {
  import opened Options
  import opened TypeGraph
  import opened MaskedText
  import opened Masking

  class RenderBudget {
    var remaining: int

    constructor ()
      ensures remaining == MAX_RENDERED_NODES_PER_RECORD
    {
      remaining := MAX_RENDERED_NODES_PER_RECORD;
    }

    method TryConsume() returns (consumed: bool)
      modifies this
      ensures consumed == CanConsume(old(remaining)) && remaining == old(remaining) - 1
    {
      consumed := remaining > 0;
      remaining := remaining - 1;
    }
  }

  class SensitiveDataMaskingProcessor {
    const env: Env
    const heap: Heap

    constructor (env: Env, heap: Heap)
      ensures this.env == env && this.heap == heap
    {
      this.env, this.heap := env, heap;
    }

    method ProcessElements(v: Value) returns (p: Processed)
      requires v.Many?
      ensures p == ProcessScalarElements(env, v)
    {
      var processed: seq<Out> := [];
      var anyChanged := false;
      for n := 0 to |v.elements|
        invariant ProcessFirst(env, v.elements, n) == Elements(processed, anyChanged)
      {
        var element := ProcessScalarElement(env, v.elements[n]);
        if element.Threw? {
          FailsToTheEnd(v.elements, n + 1);
          return Threw;
        }
        anyChanged := anyChanged || element.masked;
        processed := processed + [element.out];
      }
      p := if anyChanged then Processed(Listed(processed), true) else Processed(Passed(v), false);
    }

    lemma {:induction false} FailsToTheEnd(elements: seq<Value>, n: nat)
      requires n <= |elements| && ProcessFirst(env, elements, n).ElementsThrew?
      ensures ProcessFirst(env, elements, |elements|).ElementsThrew?
      decreases |elements| - n
    {
      if n < |elements| {
        FailsToTheEnd(elements, n + 1);
      }
    }

    method ProcessAny(v: Value, depth: nat, budget: RenderBudget) returns (p: Processed)
      requires depth <= MAX_RENDER_DEPTH + 1
      modifies budget
      ensures (p, budget.remaining) == Masking.ProcessAny(env, heap, v, depth, old(budget.remaining))
      decreases MAX_RENDER_DEPTH + 1 - depth, 2
    {
      var flat := ProcessFlat(env, heap, v);
      if flat.Some? {
        return flat.value;
      }
      if depth > MAX_RENDER_DEPTH {
        return MASKED;
      }
      var consumed := budget.TryConsume();
      if !consumed {
        return MASKED;
      }
      p := RenderObject(heap(v.ref), depth, budget);
    }

    method RenderObject(o: Object, depth: nat, budget: RenderBudget) returns (p: Processed)
      requires depth <= MAX_RENDER_DEPTH
      modifies budget
      ensures var (out, rest) := RenderMembers(env, heap, o, 0, depth, old(budget.remaining));
        && rest == budget.remaining
        && p == if out.MembersThrew? then Threw else Processed(Rendered(out.members, out.truncated), true)
      decreases MAX_RENDER_DEPTH + 1 - depth, 1
    {
      var properties := RenderableProperties(env.types, o.kind);
      var members: seq<Rendering> := [];
      var n := 0;
      ghost var whole := RenderMembers(env, heap, o, 0, depth, budget.remaining);
      while n < |properties|
        invariant n <= |properties|
        invariant Prefixed(whole, members, RenderMembers(env, heap, o, n, depth, budget.remaining))
        decreases |properties| - n
      {
        if n >= MAX_MEMBERS_PER_OBJECT {
          return Processed(Rendered(members, true), true);
        }
        var consumed := budget.TryConsume();
        assert members + [] == members;
        if !consumed {
          return Processed(Rendered(members, true), true);
        }
        var member := RenderMember(o, n, depth, budget);
        if member.Threw? {
          return Threw;
        }
        ghost var rest := RenderMembers(env, heap, o, n + 1, depth, budget.remaining);
        OneMore(whole, members, Rendering(properties[n].name, member.out), rest);
        members := members + [Rendering(properties[n].name, member.out)];
        n := n + 1;
      }
      p := Processed(Rendered(members, false), true);
    }

    /** The whole rendering is what is written so far and then the rest. */
    ghost predicate Prefixed(whole: (MembersOut, int), written: seq<Rendering>, rest: (MembersOut, int)) {
      && whole.1 == rest.1
      && whole.0 == if rest.0.MembersThrew? then MembersThrew else MembersOut(written + rest.0.members, rest.0.truncated)
    }

    lemma OneMore(whole: (MembersOut, int), written: seq<Rendering>, r: Rendering, rest: (MembersOut, int))
      requires Prefixed(whole, written,
                        (if rest.0.MembersThrew? then MembersThrew else MembersOut([r] + rest.0.members, rest.0.truncated), rest.1))
      ensures Prefixed(whole, written + [r], rest)
    {
      if rest.0.MembersOut? {
        assert written + ([r] + rest.0.members) == (written + [r]) + rest.0.members;
      }
    }

    method RenderMember(o: Object, n: nat, depth: nat, budget: RenderBudget) returns (p: Processed)
      requires n < |RenderableProperties(env.types, o.kind)| && depth <= MAX_RENDER_DEPTH
      modifies budget
      ensures (p, budget.remaining) == Masking.RenderMember(env, heap, o, n, depth, old(budget.remaining))
      decreases MAX_RENDER_DEPTH + 1 - depth, 0
    {
      var property := RenderableProperties(env.types, o.kind)[n];
      if env.types.denied(property.name) || IsSensitiveMember(env.types, property) {
        return MASKED;
      }
      var raw := MemberValue(o, n);
      if raw.Throws? {
        return MASKED;
      }
      p := ProcessAny(raw.value, depth + 1, budget);
    }

    method ProcessKeyed(key: string, v: Value, budget: RenderBudget) returns (p: Processed)
      modifies budget
      ensures (p, budget.remaining) == Masking.ProcessKeyed(env, heap, key, v, old(budget.remaining))
    {
      if !env.types.denied(key) {
        p := ProcessAny(v, 0, budget);
      } else if v == Null || v == Text("") {
        p := Processed(Passed(v), false);
      } else {
        p := MASKED;
      }
    }

    method Process(state: seq<Pair>) returns (m: MaskedState)
      ensures m == Masking.Process(env, heap, state)
    {
      var attributes: seq<Attribute> := [];
      var seen: set<string> := {};
      var template: Option<string> := None;
      var anyMasked, valueError := false, false;
      var budget := new RenderBudget();

      for n := 0 to |state|
        invariant fresh(budget)
        invariant AddPairs(env, heap, state, n) == Record(attributes, seen, template, anyMasked, valueError, budget.remaining)
      {
        var pair := state[n];
        if pair.key == ORIGINAL_FORMAT_KEY {
          if template.None? && pair.value.Text? {
            template := Some(pair.value.text);
          }
        } else if pair.key !in seen {
          seen := seen + {pair.key};
          var result := ProcessKeyed(pair.key, pair.value, budget);
          if result.Threw? {
            result := MASKED;
            valueError := true;
          }
          anyMasked := anyMasked || result.masked;
          attributes := attributes + [Attribute(pair.key, result.out)];
        }
      }
      if template.None? {
        anyMasked := true;
      }
      if (template.None? || valueError) && MASKING_ERROR_KEY !in seen {
        attributes := attributes + [Attribute(MASKING_ERROR_KEY, Shown(if template.None? then UNSTRUCTURED_STATE else "True"))];
      }
      m := MaskedState(attributes, anyMasked, template);
    }
  }
}
