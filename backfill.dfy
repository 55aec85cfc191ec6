/**
  The id backfill of `writeThemeJS`: the loop over the freshly parsed value
  that gives every element without a truthy own `id` a newly created one.
  The element objects are changed in place in the source; here the loop
  replaces the element values of a local sequence.
 */
module IdBackfill {
  import opened Json

  /** The guard of line 84 throws a TypeError before `createUuid` is called:
      `null` has no `hasOwnProperty`, and an object whose own
      `hasOwnProperty` member (any JSON value) shadows the method cannot be
      called. */
  predicate GuardThrows(e: Value)
  {
    match e
    case Null => true
    case Obj(fields) => "hasOwnProperty" in fields
    case _ => false
  }

  /** The assignment of line 85 throws a TypeError (the module runs in strict
      mode) after `createUuid()` has been evaluated: a primitive passes the
      guard, since it has no own `id`, and then refuses the new property. */
  predicate AssignThrows(e: Value)
  {
    e.Bool? || e.Number? || e.Str?
  }

  /** Evaluating the loop body on `e` throws. */
  predicate Throws(e: Value)
  {
    GuardThrows(e) || AssignThrows(e)
  }

  /** The guard of the loop body: no own `id`, or a falsy one. Arrays never
      have an own `id`. */
  predicate LacksId(e: Value)
  {
    match e
    case Obj(fields) => "id" !in fields || !Truthy(fields["id"])
    case _ => true
  }

  /** `e.id = token` as far as JSON can see it: an object gets the member,
      while a property put on an array is not serialised and leaves it as it
      was. */
  function Assign(e: Value, token: string): (r: Value)
    ensures e.Obj? ==> r.Obj? && r.fields.Keys == e.fields.Keys + {"id"}
    ensures e.Obj? ==> r.fields["id"] == Str(token)
    ensures e.Obj? ==> forall k :: k in e.fields && k != "id" ==> r.fields[k] == e.fields[k]
    ensures !e.Obj? ==> r == e
  {
    match e
    case Obj(fields) => Obj(fields["id" := Str(token)])
    case _ => e
  }

  /** Where the walk stopped: the value (with the elements it stamped), how
      many tokens have been taken from the supply, whether an element got an
      id (`createdUuid`), and whether it threw. */
  datatype Walk = Walk(value: Value, issued: nat, created: bool, failed: bool)

  /** The loop at element `i`, with `issued` tokens already taken: the `n`-th
      call of `createUuid` in a run returns `uuid(n)`. */
  function BackfillFrom(items: seq<Value>, i: nat, uuid: nat -> string, issued: nat, created: bool): (w: Walk)
    ensures w.issued >= issued
    ensures created ==> w.created
    decreases |items| - i
  {
    if i >= |items| then Walk(Arr(items), issued, created, false)
    else if GuardThrows(items[i]) then Walk(Arr(items), issued, created, true)
    // `createUuid()` is evaluated before the assignment throws
    else if AssignThrows(items[i]) then Walk(Arr(items), issued + 1, created, true)
    else if LacksId(items[i]) then
      BackfillFrom(items[i := Assign(items[i], uuid(issued))], i + 1, uuid, issued + 1, true)
    else BackfillFrom(items, i + 1, uuid, issued, created)
  }

  /** The whole backfill of one parsed value. The loop bound is
      `jsonData.length`: `null.length` throws, a string's characters are
      primitives (the first one throws), and numbers, booleans and objects
      have no `length`, so the loop runs zero times. */
  function Backfill(v: Value, uuid: nat -> string, issued: nat): (w: Walk)
    ensures w.issued >= issued
  {
    match v
    case Arr(items) => BackfillFrom(items, 0, uuid, issued, false)
    case Null => Walk(v, issued, false, true)
    // `s[0]` is a primitive: `createUuid()` is evaluated, then the assignment throws
    case Str(s) => if s == "" then Walk(v, issued, false, false) else Walk(v, issued + 1, false, true)
    case _ => Walk(v, issued, false, false)
  }

  /** A value that is not an array is left as it is and gets no id: the loop
      runs zero times, except that `null` throws on its `length` and a
      non-empty string throws in its first step, after one call of
      `createUuid`. */
  lemma NonArrayIsUntouched(v: Value, uuid: nat -> string, issued: nat)
    requires !v.Arr?
    ensures var w := Backfill(v, uuid, issued);
            && w.value == v && !w.created
            && (w.failed <==> v.Null? || (v.Str? && v.s != ""))
            && w.issued == if v.Str? && v.s != "" then issued + 1 else issued
  {
  }

  /** The number of elements of `s` from index `from` up to `to` that lack
      an id. */
  function Needing(s: seq<Value>, from: nat, to: nat): nat
    requires from <= to <= |s|
    decreases (to as int) - from
  {
    if from == to then 0 else (if LacksId(s[from]) then 1 else 0) + Needing(s, from + 1, to)
  }

  /** The index of the first element of `s` from `from` on where the loop
      body throws, or `|s|` when there is none. */
  function FirstThrow(s: seq<Value>, from: nat): (n: nat)
    requires from <= |s|
    ensures from <= n <= |s|
    ensures forall j :: from <= j < n ==> !Throws(s[j])
    ensures n < |s| ==> Throws(s[n])
    decreases |s| - from
  {
    if from == |s| then |s| else if Throws(s[from]) then from else FirstThrow(s, from + 1)
  }

  /** The `createUuid` call made by the element at `stop`, where the loop
      throws: one when the assignment throws, none when the guard does or
      when the loop ran to the end. */
  function CallAtThrow(s: seq<Value>, stop: nat): nat
    requires stop <= |s|
  {
    if stop < |s| && AssignThrows(s[stop]) then 1 else 0
  }

  /** An element the loop leaves as it is, whatever token it is offered. */
  predicate StableElement(e: Value)
  {
    !Throws(e) && (e.Arr? || !LacksId(e))
  }

  /** An element with a truthy own `id`: the loop neither throws on it nor
      calls `createUuid` for it. */
  predicate CleanElement(e: Value)
  {
    e.Obj? && !Throws(e) && !LacksId(e)
  }

  /** A value the backfill returns unchanged and without throwing. */
  predicate StableValue(v: Value)
  {
    match v
    case Arr(items) => forall e <- items :: StableElement(e)
    case Null => false
    case Str(s) => s == ""
    case _ => true
  }

  /** A value on which the backfill also creates no id at all. */
  predicate CleanValue(v: Value)
  {
    match v
    case Arr(items) => forall e <- items :: CleanElement(e)
    case Null => false
    case Str(s) => s == ""
    case _ => true
  }

  /** Two sequences that agree from `from` on have the same first throwing
      element from there. */
  lemma {:induction false} FirstThrowSame(a: seq<Value>, b: seq<Value>, from: nat)
    requires |a| == |b| && from <= |a|
    requires forall k :: from <= k < |a| ==> a[k] == b[k]
    ensures FirstThrow(a, from) == FirstThrow(b, from)
    decreases |a| - from
  {
    if from < |a| {
      FirstThrowSame(a, b, from + 1);
    }
  }

  /** Two sequences that agree between `from` and `to` have as many
      elements lacking an id there. */
  lemma {:induction false} NeedingSame(a: seq<Value>, b: seq<Value>, from: nat, to: nat)
    requires from <= to <= |a| && to <= |b|
    requires forall k :: from <= k < to ==> a[k] == b[k]
    ensures Needing(a, from, to) == Needing(b, from, to)
    decreases (to as int) - from
  {
    if from < to {
      NeedingSame(a, b, from + 1, to);
    }
  }

  /** No element between `from` and `to` lacks an id exactly when none is
      counted there. */
  lemma {:induction false} NeedingZero(s: seq<Value>, from: nat, to: nat)
    requires from <= to <= |s|
    ensures Needing(s, from, to) == 0 <==> (forall k :: from <= k < to ==> !LacksId(s[k]))
    decreases (to as int) - from
  {
    if from < to {
      NeedingZero(s, from + 1, to);
    }
  }

  /** One step of the loop on an element that does not throw. */
  lemma BackfillFromStep(items: seq<Value>, i: nat, uuid: nat -> string, issued: nat, created: bool)
    requires i < |items| && !Throws(items[i])
    ensures var next := if LacksId(items[i]) then items[i := Assign(items[i], uuid(issued))] else items;
            && |next| == |items| && (forall k :: 0 <= k < |items| && k != i ==> next[k] == items[k])
            && BackfillFrom(items, i, uuid, issued, created)
               == BackfillFrom(next, i + 1, uuid, if LacksId(items[i]) then issued + 1 else issued,
                               created || LacksId(items[i]))
            && FirstThrow(items, i) == FirstThrow(next, i + 1)
            && CallAtThrow(items, FirstThrow(items, i)) == CallAtThrow(next, FirstThrow(items, i))
  {
    var next := if LacksId(items[i]) then items[i := Assign(items[i], uuid(issued))] else items;
    FirstThrowSame(items, next, i + 1);
  }

  /** The loop from element `i` on keeps the length, leaves the elements
      before `i` and from the first throwing one on as they were, and reports
      a throw exactly when some element from `i` on throws. */
  lemma {:induction false} BackfillFromShape(items: seq<Value>, i: nat, uuid: nat -> string, issued: nat, created: bool)
    requires i <= |items|
    ensures var w := BackfillFrom(items, i, uuid, issued, created);
            var stop := FirstThrow(items, i);
            && w.value.Arr? && |w.value.items| == |items|
            && w.failed == (stop < |items|)
            && (forall k :: 0 <= k < i ==> w.value.items[k] == items[k])
            && (forall k :: stop <= k < |items| ==> w.value.items[k] == items[k])
    decreases |items| - i
  {
    if i < |items| && !Throws(items[i]) {
      BackfillFromStep(items, i, uuid, issued, created);
      var next := if LacksId(items[i]) then items[i := Assign(items[i], uuid(issued))] else items;
      BackfillFromShape(next, i + 1, uuid, if LacksId(items[i]) then issued + 1 else issued, created || LacksId(items[i]));
    }
  }

  /** The loop from element `i` on takes one token per element that lacks an
      id, up to the first element that throws, and one more when that element
      throws in the assignment; it creates an id exactly when it stamps some
      element before the one that throws. */
  lemma {:induction false} BackfillFromIssued(items: seq<Value>, i: nat, uuid: nat -> string, issued: nat, created: bool)
    requires i <= |items|
    ensures var w := BackfillFrom(items, i, uuid, issued, created);
            var stop := FirstThrow(items, i);
            && w.issued == issued + Needing(items, i, stop) + CallAtThrow(items, stop)
            && w.created == (created || Needing(items, i, stop) > 0)
    decreases |items| - i
  {
    if i < |items| && !Throws(items[i]) {
      BackfillFromStep(items, i, uuid, issued, created);
      var next := if LacksId(items[i]) then items[i := Assign(items[i], uuid(issued))] else items;
      BackfillFromIssued(next, i + 1, uuid, if LacksId(items[i]) then issued + 1 else issued, created || LacksId(items[i]));
      NeedingSame(next, items, i + 1, FirstThrow(items, i));
    }
  }

  /** The element at `j`, between `i` and the first element that throws,
      gets the next fresh token when it lacks an id, and is kept otherwise. */
  lemma {:induction false} BackfillFromAt(items: seq<Value>, i: nat, uuid: nat -> string, issued: nat, created: bool, j: nat)
    requires i <= j < |items| && j < FirstThrow(items, i)
    ensures var w := BackfillFrom(items, i, uuid, issued, created);
            && w.value.Arr? && j < |w.value.items|
            && w.value.items[j] ==
                 if LacksId(items[j]) then Assign(items[j], uuid(issued + Needing(items, i, j))) else items[j]
    decreases |items| - i
  {
    BackfillFromStep(items, i, uuid, issued, created);
    var next := if LacksId(items[i]) then items[i := Assign(items[i], uuid(issued))] else items;
    var issuedNext := if LacksId(items[i]) then issued + 1 else issued;
    var createdNext := created || LacksId(items[i]);
    if j == i {
      BackfillFromShape(next, i + 1, uuid, issuedNext, createdNext);
    } else {
      BackfillFromAt(next, i + 1, uuid, issuedNext, createdNext, j);
      NeedingSame(next, items, i + 1, j);
    }
  }

  /** The whole loop over a parsed array: it stops at the first element that
      throws and reports the throw, leaves that element and the ones after it
      as they were, gives each element before it that lacks an id the next
      token of the supply, keeps the others, and takes one token per element
      it stamped, plus the one the throwing element takes when it throws in
      the assignment; `createdUuid` ends true exactly when it stamped an
      element. */
  lemma BackfillArrayEffect(items: seq<Value>, uuid: nat -> string, issued: nat)
    ensures var w := Backfill(Arr(items), uuid, issued);
            var stop := FirstThrow(items, 0);
            && w.value.Arr? && |w.value.items| == |items|
            && w.failed == (stop < |items|)
            && w.issued == issued + Needing(items, 0, stop) + CallAtThrow(items, stop)
            && w.created == (Needing(items, 0, stop) > 0)
            && (forall k :: stop <= k < |items| ==> w.value.items[k] == items[k])
            && forall j :: 0 <= j < stop ==>
                 w.value.items[j] ==
                   if LacksId(items[j]) then Assign(items[j], uuid(issued + Needing(items, 0, j))) else items[j]
  {
    BackfillFromShape(items, 0, uuid, issued, false);
    BackfillFromIssued(items, 0, uuid, issued, false);
    forall j | 0 <= j < FirstThrow(items, 0) {
      BackfillFromAt(items, 0, uuid, issued, false, j);
    }
  }

  /** Backfilling an array on which nothing throws: the loop runs to the
      end without throwing, an element with a truthy `id` is left as it is,
      one token is taken per element that lacked an id, and an id is created
      exactly when some element lacked one. */
  lemma BackfillAssignsMissingIds(items: seq<Value>, uuid: nat -> string, issued: nat)
    requires forall e <- items :: !Throws(e)
    ensures var w := Backfill(Arr(items), uuid, issued);
            && !w.failed && w.value.Arr? && |w.value.items| == |items|
            && w.issued == issued + Needing(items, 0, |items|)
            && w.created == (Needing(items, 0, |items|) > 0)
            && (forall j :: 0 <= j < |items| && !LacksId(items[j]) ==> w.value.items[j] == items[j])
  {
    NothingThrows(items);
    BackfillArrayEffect(items, uuid, issued);
  }

  /** In the same loop, an object without a truthy `id` gets `id` set to the
      next token of the supply, one past those taken by the elements before
      it, and keeps its other members. */
  lemma BackfillStampsObject(items: seq<Value>, uuid: nat -> string, issued: nat, j: nat)
    requires forall e <- items :: !Throws(e)
    requires j < |items| && items[j].Obj? && LacksId(items[j])
    ensures var w := Backfill(Arr(items), uuid, issued);
            && w.value.Arr? && j < |w.value.items|
            && w.value.items[j] == Obj(items[j].fields["id" := Str(uuid(issued + Needing(items, 0, j)))])
  {
    NothingThrows(items);
    BackfillArrayEffect(items, uuid, issued);
    var token := uuid(issued + Needing(items, 0, j));
    AssignToObject(items[j], token);
  }

  /** On an object, `Assign` sets the `id` member. */
  lemma AssignToObject(e: Value, token: string)
    requires e.Obj?
    ensures Assign(e, token) == Obj(e.fields["id" := Str(token)])
  {
  }

  /** When no element throws, the loop runs to the end. */
  lemma NothingThrows(items: seq<Value>)
    requires forall e <- items :: !Throws(e)
    ensures FirstThrow(items, 0) == |items|
  {
    var stop := FirstThrow(items, 0);
    if stop < |items| {
      assert items[stop] in items;
    }
  }

  /** When the loop does not throw, `createdUuid` is set exactly when
      `createUuid` was called. */
  lemma CreatedIffTokenTaken(v: Value, uuid: nat -> string, issued: nat)
    requires !Backfill(v, uuid, issued).failed
    ensures Backfill(v, uuid, issued).created <==> Backfill(v, uuid, issued).issued > issued
  {
    if v.Arr? {
      BackfillArrayEffect(v.items, uuid, issued);
    } else {
      NonArrayIsUntouched(v, uuid, issued);
    }
  }

  /** A walk that throws stops there: a parsed array with a throwing element
      is reported as failed, whatever the supply. */
  lemma BackfillFailsIffSomeElementThrows(v: Value, uuid: nat -> string, issued: nat)
    requires v.Arr?
    ensures Backfill(v, uuid, issued).failed <==> exists e <- v.items :: Throws(e)
  {
    BackfillArrayEffect(v.items, uuid, issued);
    var stop := FirstThrow(v.items, 0);
    if stop < |v.items| {
      assert v.items[stop] in v.items;
    }
  }

  /** With non-empty tokens, whatever a walk that did not throw returns is
      stable: backfilling it again changes nothing. */
  lemma BackfillResultIsStable(v: Value, uuid: nat -> string, issued: nat)
    requires forall n :: uuid(n) != ""
    requires !Backfill(v, uuid, issued).failed
    ensures StableValue(Backfill(v, uuid, issued).value)
  {
    if v.Arr? {
      var items := v.items;
      BackfillArrayEffect(items, uuid, issued);
      var w := Backfill(v, uuid, issued);
      forall e <- w.value.items
        ensures StableElement(e)
      {
        var j :| 0 <= j < |w.value.items| && w.value.items[j] == e;
        assert !Throws(items[j]);
      }
    }
  }

  /** The same, and when the array had no array elements the result is clean:
      a second backfill would not even create an id. */
  lemma BackfillResultIsClean(v: Value, uuid: nat -> string, issued: nat)
    requires forall n :: uuid(n) != ""
    requires !Backfill(v, uuid, issued).failed
    requires v.Arr? ==> forall e <- v.items :: !e.Arr?
    ensures CleanValue(Backfill(v, uuid, issued).value)
  {
    if v.Arr? {
      var items := v.items;
      BackfillArrayEffect(items, uuid, issued);
      var w := Backfill(v, uuid, issued);
      forall e <- w.value.items
        ensures CleanElement(e)
      {
        var j :| 0 <= j < |w.value.items| && w.value.items[j] == e;
        assert !Throws(items[j]) && !items[j].Arr?;
      }
    }
  }

  /** A stable value is a fixed point of the backfill. */
  lemma StableIsFixedPoint(v: Value, uuid: nat -> string, issued: nat)
    requires StableValue(v)
    ensures Backfill(v, uuid, issued).value == v
    ensures !Backfill(v, uuid, issued).failed
  {
    if v.Arr? {
      var items := v.items;
      forall k | 0 <= k < |items|
        ensures StableElement(items[k])
      {
        assert items[k] in items;
      }
      BackfillArrayEffect(items, uuid, issued);
      var w := Backfill(v, uuid, issued);
      forall j | 0 <= j < |items|
        ensures w.value.items[j] == items[j]
      {
        assert StableElement(items[j]);
      }
      assert w.value.items == items;
    }
  }

  /** A clean value is left untouched and no token is taken for it. */
  lemma CleanIsUntouched(v: Value, uuid: nat -> string, issued: nat)
    requires CleanValue(v)
    ensures Backfill(v, uuid, issued) == Walk(v, issued, false, false)
  {
    if v.Arr? {
      var items := v.items;
      assert StableValue(v);
      forall k | 0 <= k < |items|
        ensures CleanElement(items[k])
      {
        assert items[k] in items;
      }
      StableIsFixedPoint(v, uuid, issued);
      BackfillArrayEffect(items, uuid, issued);
      NeedingZero(items, 0, |items|);
    }
  }

  /** The loop of lines 80-88, run on the freshly parsed value; `created` is
      the `createdUuid` flag. */
  method BackfillParsed(parsed: Value, uuid: nat -> string, issued0: nat)
    returns (value: Value, issued: nat, created: bool, failed: bool)
    ensures Walk(value, issued, created, failed) == Backfill(parsed, uuid, issued0)
  {
    match parsed {
      case Arr(items0) =>
        var items := items0;
        issued, created := issued0, false;
        var i := 0;
        while i < |items|
          invariant 0 <= i <= |items|
          invariant BackfillFrom(items, i, uuid, issued, created) == BackfillFrom(items0, 0, uuid, issued0, false)
        {
          if GuardThrows(items[i]) {
            return Arr(items), issued, created, true;
          }
          if LacksId(items[i]) {
            var token := uuid(issued);
            issued := issued + 1;
            if AssignThrows(items[i]) {
              return Arr(items), issued, created, true;
            }
            items := items[i := Assign(items[i], token)];
            created := true;
          }
          i := i + 1;
        }
        value, failed := Arr(items), false;
      case Null =>
        value, issued, created, failed := parsed, issued0, false, true;
      case Str(s) =>
        if s == "" {
          value, issued, created, failed := parsed, issued0, false, false;
        } else {
          // `createUuid()` for `s[0]`, then the assignment throws
          value, issued, created, failed := parsed, issued0 + 1, false, true;
        }
      case _ =>
        value, issued, created, failed := parsed, issued0, false, false;
    }
  }
}
