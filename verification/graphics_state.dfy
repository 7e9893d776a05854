/** The renderer's state: a stack of open transform scopes (bottom first)
    and a map from saved-state tokens to the stack depth recorded by
    `Save`. Closing a scope is logged as a `Pop` call, so the order in which
    scopes are disposed of is part of the emitted trace. */
module GraphicsState {
  import opened Primitives
  import opened Surface
  import opened Commands

  /** `nextScope` counts the scopes pushed so far and names the next one. */
  datatype Session = Session(stack: seq<nat>, saved: map<nat, nat>, nextScope: nat)

  /** A session after one call, with the calls it emitted. */
  datatype Outcome = Outcome(session: Session, calls: seq<Call>)

  /** The freshly constructed renderer. */
  const Initial := Session([], map[], 0)

  /** Scopes on the stack were opened in stack order and all before the
      next name is handed out. */
  predicate Valid(s: Session) {
    && (forall i :: 0 <= i < |s.stack| ==> s.stack[i] < s.nextScope)
    && (forall i, j :: 0 <= i < j < |s.stack| ==> s.stack[i] < s.stack[j])
  }

  /** The smaller of two depths. */
  function MinDepth(a: nat, b: nat): (m: nat)
    ensures m <= a && m <= b && (m == a || m == b)
  {
    if a < b then a else b
  }

  /** Disposing of the scopes `ids`, topmost first. */
  function Unwind(ids: seq<nat>): (calls: seq<Call>)
    ensures |calls| == |ids|
    ensures forall k :: 0 <= k < |ids| ==> calls[k] == Pop(ids[|ids| - 1 - k])
  {
    if ids == [] then [] else [Pop(ids[|ids| - 1])] + Unwind(ids[..|ids| - 1])
  }

  /** The loop "while the stack is deeper than `target`, pop and dispose",
      one iteration per call: it keeps the bottom `target` scopes and
      disposes of the rest from the top down. */
  function PopWhileAbove(stack: seq<nat>, target: nat): (r: (seq<nat>, seq<Call>))
    ensures r.0 == stack[..MinDepth(|stack|, target)]
    ensures r.1 == Unwind(stack[MinDepth(|stack|, target)..])
    decreases |stack|
  {
    if |stack| <= target then
      assert stack[|stack|..] == [];
      (stack, [])
    else
      var top := stack[|stack| - 1];
      var rest := PopWhileAbove(stack[..|stack| - 1], target);
      var k := MinDepth(|stack|, target);
      assert stack[k..][..|stack| - k - 1] == stack[..|stack| - 1][k..];
      (rest.0, [Pop(top)] + rest.1)
  }

  /** `Save`: records the current depth under the token, replacing any
      earlier record, and changes nothing else. */
  function Save(s: Session, token: nat): (r: Outcome)
    ensures r.calls == [] && r.session.stack == s.stack && r.session.nextScope == s.nextScope
    ensures token in r.session.saved && r.session.saved[token] == |s.stack|
    ensures forall t :: t != token ==> (t in r.session.saved <==> t in s.saved)
    ensures forall t :: t != token && t in s.saved ==> r.session.saved[t] == s.saved[t]
  {
    Outcome(s.(saved := s.saved[token := |s.stack|]), [])
  }

  /** `Restore`: for a recorded token, forgets it and pops down to the
      recorded depth; for any other token, nothing. */
  function Restore(s: Session, token: nat): (r: Outcome)
    ensures token !in s.saved ==> r == Outcome(s, [])
    ensures token in s.saved ==>
      var keep := MinDepth(|s.stack|, s.saved[token]);
      && r.session == Session(s.stack[..keep], s.saved - {token}, s.nextScope)
      && r.calls == Unwind(s.stack[keep..])
  {
    if token in s.saved then
      var popped := PopWhileAbove(s.stack, s.saved[token]);
      Outcome(Session(popped.0, s.saved - {token}, s.nextScope), popped.1)
    else
      Outcome(s, [])
  }

  /** `AddTransform`: `Prepend` opens a pre-transform scope and `Append` a
      post-transform scope with the given matrix; any other order opens
      nothing. */
  function AddTransform(s: Session, m: Matrix, order: XMatrixOrder): (r: Outcome)
    ensures order.Undefined? ==> r == Outcome(s, [])
    ensures !order.Undefined? ==>
      && r.session == Session(s.stack + [s.nextScope], s.saved, s.nextScope + 1)
      && r.calls == [Push(s.nextScope, if order.Prepend? then PreTransform else PostTransform, m)]
  {
    match order
    case Prepend => Outcome(Session(s.stack + [s.nextScope], s.saved, s.nextScope + 1), [Push(s.nextScope, PreTransform, m)])
    case Append => Outcome(Session(s.stack + [s.nextScope], s.saved, s.nextScope + 1), [Push(s.nextScope, PostTransform, m)])
    case Undefined(_) => Outcome(s, [])
  }

  /** `Close`: disposes of every open scope, topmost first. The saved
      tokens are kept. */
  function Close(s: Session): (r: Outcome)
    ensures r.session == s.(stack := [])
    ensures r.calls == Unwind(s.stack)
  {
    var popped := PopWhileAbove(s.stack, 0);
    Outcome(Session(popped.0, s.saved, s.nextScope), popped.1)
  }

  /** Every state operation keeps the stack in opening order. */
  lemma StateOperationsKeepValid(s: Session, token: nat, m: Matrix, order: XMatrixOrder)
    requires Valid(s)
    ensures Valid(Save(s, token).session) && Valid(Restore(s, token).session)
    ensures Valid(AddTransform(s, m, order).session) && Valid(Close(s).session)
  {
    RestoreKeepsValid(s, token);
    AddTransformKeepsValid(s, m, order);
  }

  /** Cutting the stack keeps the order of what is left. */
  lemma RestoreKeepsValid(s: Session, token: nat)
    requires Valid(s)
    ensures Valid(Restore(s, token).session)
  {
    if token in s.saved {
      var k := MinDepth(|s.stack|, s.saved[token]);
      var r := Restore(s, token).session;
      assert r.stack == s.stack[..k];
      assert forall i :: 0 <= i < k ==> r.stack[i] == s.stack[i];
    }
  }

  /** A new scope is named above every open one. */
  lemma AddTransformKeepsValid(s: Session, m: Matrix, order: XMatrixOrder)
    requires Valid(s)
    ensures Valid(AddTransform(s, m, order).session)
  {
    if !order.Undefined? {
      var r := AddTransform(s, m, order).session;
      assert r.stack == s.stack + [s.nextScope];
      assert forall i :: 0 <= i < |s.stack| ==> r.stack[i] == s.stack[i];
    }
  }

  /** Disposal is last-in first-out: of two scopes closed by one call, the
      one opened later is closed first. */
  lemma UnwindIsLastInFirstOut(s: Session, token: nat)
    requires Valid(s)
    ensures var calls := Close(s).calls;
      forall i, j :: 0 <= i < j < |calls| ==> calls[i].scope > calls[j].scope
    ensures var calls := Restore(s, token).calls;
      forall i, j :: 0 <= i < j < |calls| ==> calls[i].scope > calls[j].scope
  {
    var calls := Close(s).calls;
    assert forall i :: 0 <= i < |calls| ==> calls[i].scope == s.stack[|s.stack| - 1 - i];
    if token in s.saved {
      var k := MinDepth(|s.stack|, s.saved[token]);
      var popped := s.stack[k..];
      assert forall i :: 0 <= i < |popped| ==> popped[i] == s.stack[k + i];
    }
  }

  /** Restoring a token a second time (or one never saved) changes
      nothing. */
  lemma RestoreTwiceIsOnce(s: Session, token: nat)
    ensures var once := Restore(s, token).session;
      Restore(once, token) == Outcome(once, [])
  {
  }

  /** A recorded depth at or above the current one pops nothing; the token
      is still forgotten. */
  lemma RestoreAboveDepthPopsNothing(s: Session, token: nat)
    requires token in s.saved && s.saved[token] >= |s.stack|
    ensures Restore(s, token) == Outcome(s.(saved := s.saved - {token}), [])
  {
    assert s.stack[..|s.stack|] == s.stack;
  }

  /** After `Close`, restoring any token pops nothing. */
  lemma RestoreAfterClose(s: Session, token: nat)
    ensures Restore(Close(s).session, token).calls == []
    ensures Restore(Close(s).session, token).session.stack == []
  {
  }

  /** Applies `AddTransform` with each matrix and order in turn. */
  function PushAll(s: Session, ts: seq<(Matrix, XMatrixOrder)>): (r: Outcome)
    ensures r.session.saved == s.saved
    ensures |s.stack| <= |r.session.stack| && r.session.stack[..|s.stack|] == s.stack
    ensures forall i :: 0 <= i < |r.calls| ==> r.calls[i].Push?
    ensures |r.calls| == |r.session.stack| - |s.stack|
    ensures forall i :: 0 <= i < |r.calls| ==> r.calls[i].scope == r.session.stack[|s.stack| + i]
    decreases |ts|
  {
    if ts == [] then Outcome(s, [])
    else
      var first := AddTransform(s, ts[0].0, ts[0].1);
      var rest := PushAll(first.session, ts[1..]);
      PushAllStep(s, first, rest);
      Outcome(rest.session, first.calls + rest.calls)
  }

  /** One step of `PushAll`: the facts of the first push and of the rest
      compose. */
  lemma PushAllStep(s: Session, first: Outcome, rest: Outcome)
    requires first.session.saved == s.saved
    requires |first.calls| == |first.session.stack| - |s.stack| <= 1
    requires |s.stack| <= |first.session.stack| && first.session.stack[..|s.stack|] == s.stack
    requires forall i :: 0 <= i < |first.calls| ==> first.calls[i].Push? && first.calls[i].scope == first.session.stack[|s.stack| + i]
    requires rest.session.saved == first.session.saved
    requires |first.session.stack| <= |rest.session.stack| && rest.session.stack[..|first.session.stack|] == first.session.stack
    requires |rest.calls| == |rest.session.stack| - |first.session.stack|
    requires forall i :: 0 <= i < |rest.calls| ==> rest.calls[i].Push? && rest.calls[i].scope == rest.session.stack[|first.session.stack| + i]
    ensures |s.stack| <= |rest.session.stack| && rest.session.stack[..|s.stack|] == s.stack
    ensures |first.calls + rest.calls| == |rest.session.stack| - |s.stack|
    ensures forall i :: 0 <= i < |first.calls + rest.calls| ==>
      (first.calls + rest.calls)[i].Push? && (first.calls + rest.calls)[i].scope == rest.session.stack[|s.stack| + i]
  {
    var n := |s.stack|;
    var f := |first.session.stack|;
    assert rest.session.stack[..n] == rest.session.stack[..f][..n];
    if |first.calls| == 1 {
      assert rest.session.stack[..f][n] == rest.session.stack[n];
    }
  }

  /** A `Save`, any run of transforms, then `Restore` of the same token
      puts the stack back as it was and disposes of exactly the scopes
      the transforms opened, the last one first. */
  lemma SaveRestoreBracket(s: Session, token: nat, ts: seq<(Matrix, XMatrixOrder)>)
    ensures var inner := PushAll(Save(s, token).session, ts);
      var r := Restore(inner.session, token);
      && r.session.stack == s.stack
      && token !in r.session.saved
      && |r.calls| == |inner.calls|
      && forall k :: 0 <= k < |r.calls| ==> r.calls[k] == Pop(inner.calls[|inner.calls| - 1 - k].scope)
  {
    var inner := PushAll(Save(s, token).session, ts);
    RestoreAfterPushes(inner.session, s.stack, inner.calls, token);
  }

  /** Restoring a token recorded at depth `|base|`, after pushes that
      stacked scopes on `base`, gives back `base` and closes those scopes
      in reverse. */
  lemma RestoreAfterPushes(t: Session, base: seq<nat>, pushes: seq<Call>, token: nat)
    requires token in t.saved && t.saved[token] == |base|
    requires |base| <= |t.stack| && t.stack[..|base|] == base
    requires |pushes| == |t.stack| - |base|
    requires forall i :: 0 <= i < |pushes| ==> pushes[i].Push? && pushes[i].scope == t.stack[|base| + i]
    ensures var r := Restore(t, token);
      && r.session.stack == base
      && token !in r.session.saved
      && |r.calls| == |pushes|
      && forall k :: 0 <= k < |r.calls| ==> r.calls[k] == Pop(pushes[|pushes| - 1 - k].scope)
  {
    var n := |base|;
    RestoreToRecordedDepth(t, token);
    var popped := t.stack[n..];
    forall i | 0 <= i < |pushes|
      ensures pushes[i].Push? && pushes[i].scope == popped[i]
    {
    }
    UnwindReversesPushes(popped, pushes);
  }

  /** `Restore` of a token recorded at or below the current depth cuts the
      stack to that depth and disposes of the rest. */
  lemma RestoreToRecordedDepth(s: Session, token: nat)
    requires token in s.saved && s.saved[token] <= |s.stack|
    ensures Restore(s, token).session.stack == s.stack[..s.saved[token]]
    ensures token !in Restore(s, token).session.saved
    ensures Restore(s, token).calls == Unwind(s.stack[s.saved[token]..])
  {
  }

  /** Disposing of the scopes that a run of pushes opened closes them in
      the reverse of their opening order. */
  lemma UnwindReversesPushes(ids: seq<nat>, pushes: seq<Call>)
    requires |ids| == |pushes|
    requires forall i :: 0 <= i < |pushes| ==> pushes[i].Push? && pushes[i].scope == ids[i]
    ensures |Unwind(ids)| == |pushes|
    ensures forall k :: 0 <= k < |pushes| ==> Unwind(ids)[k] == Pop(pushes[|pushes| - 1 - k].scope)
  {
  }

  /** Inside the bracket `Save(t) … Restore(t)` opened on the stack `base`:
      `base` is still the bottom of the stack, `t` still records its depth,
      and every token in `seen` (those saved inside the bracket) that is
      still recorded records a depth no lower than `base`. */
  predicate InBracket(base: seq<nat>, t: nat, seen: set<nat>, s: Session) {
    && |base| <= |s.stack| && s.stack[..|base|] == base
    && t in s.saved && s.saved[t] == |base|
    && t !in seen
    && forall u :: u in seen && u in s.saved ==> s.saved[u] >= |base|
  }

  /** Saving another token inside the bracket records a depth no lower than
      the bracket's, so the token joins `seen`. */
  lemma SaveKeepsBracket(base: seq<nat>, t: nat, seen: set<nat>, s: Session, token: nat)
    requires InBracket(base, t, seen, s) && token != t
    ensures InBracket(base, t, seen + {token}, Save(s, token).session)
  {
  }

  /** Restoring a token saved inside the bracket cuts the stack no lower
      than the bracket's depth. */
  lemma RestoreKeepsBracket(base: seq<nat>, t: nat, seen: set<nat>, s: Session, token: nat)
    requires InBracket(base, t, seen, s) && token in seen
    ensures InBracket(base, t, seen, Restore(s, token).session)
  {
    if token in s.saved {
      var k := MinDepth(|s.stack|, s.saved[token]);
      assert s.stack[..k][..|base|] == s.stack[..|base|];
    }
  }

  /** A transform inside the bracket only grows the stack. */
  lemma AddTransformKeepsBracket(base: seq<nat>, t: nat, seen: set<nat>, s: Session, m: Matrix, order: XMatrixOrder)
    requires InBracket(base, t, seen, s)
    ensures InBracket(base, t, seen, AddTransform(s, m, order).session)
  {
    if !order.Undefined? {
      assert (s.stack + [s.nextScope])[..|base|] == s.stack[..|base|];
    }
  }

  /** Closing the bracket: `Restore(t)` puts the stack back to `base` and
      forgets `t`. */
  lemma RestoreClosesBracket(base: seq<nat>, t: nat, seen: set<nat>, s: Session)
    requires InBracket(base, t, seen, s)
    ensures Restore(s, t).session.stack == base
    ensures t !in Restore(s, t).session.saved
  {
    RestoreToRecordedDepth(s, t);
  }

  /** Restoring an outer token also discards the scopes opened after an
      inner `Save`; the inner token stays recorded, and restoring it later
      pops nothing. */
  lemma RestoreOuterDiscardsInner(s: Session, outer: nat, inner: nat, m1: Matrix, m2: Matrix)
    requires outer != inner
    ensures var s1 := AddTransform(Save(s, outer).session, m1, Prepend).session;
      var s2 := AddTransform(Save(s1, inner).session, m2, Append).session;
      var r := Restore(s2, outer);
      && r.session.stack == s.stack
      && r.calls == [Pop(s.nextScope + 1), Pop(s.nextScope)]
      && inner in r.session.saved && r.session.saved[inner] == |s.stack| + 1
      && Restore(r.session, inner).calls == []
  {
    var s1 := AddTransform(Save(s, outer).session, m1, Prepend).session;
    var s2 := AddTransform(Save(s1, inner).session, m2, Append).session;
    assert s2.stack == s.stack + [s.nextScope, s.nextScope + 1];
    assert s2.stack[..|s.stack|] == s.stack;
    assert s2.stack[|s.stack|..] == [s.nextScope, s.nextScope + 1];
  }
}
