/** Emitting one interface per input type an operation's variables reach.

    `scripts/graphql-codegen.ts`, the input-object queue of `emitOperationModule`. */
module InputObjects {
  type Name = string

  /** Each input type with the input types its fields mention, in field order. */
  type Schema = map<Name, seq<Name>>

  /** A schema names only types it declares. */
  ghost predicate Closed(schema: Schema, roots: seq<Name>) {
    (forall r :: r in roots ==> r in schema) && (forall n, m :: n in schema && m in schema[n] ==> m in schema)
  }

  /** Each type of the path mentions the next. */
  ghost predicate IsPath(schema: Schema, path: seq<Name>) {
    path != [] && forall i :: 0 <= i < |path| - 1 ==> path[i] in schema && path[i + 1] in schema[path[i]]
  }

  ghost predicate Reaches(schema: Schema, roots: seq<Name>, name: Name) {
    exists path :: IsPath(schema, path) && path[0] in roots && path[|path| - 1] == name
  }

  lemma RootIsReached(schema: Schema, roots: seq<Name>, name: Name)
    requires name in roots
    ensures Reaches(schema, roots, name)
  {
    assert IsPath(schema, [name]);
  }

  lemma MentionIsReached(schema: Schema, roots: seq<Name>, from: Name, name: Name)
    requires Reaches(schema, roots, from) && from in schema && name in schema[from]
    ensures Reaches(schema, roots, name)
  {
    var path :| IsPath(schema, path) && path[0] in roots && path[|path| - 1] == from;
    assert IsPath(schema, path + [name]);
  }

  /** A set that holds the roots and whatever its members mention holds everything reached. */
  lemma {:induction false} ClosedSetHoldsPath(schema: Schema, roots: seq<Name>, seen: set<Name>, path: seq<Name>)
    requires forall r :: r in roots ==> r in seen
    requires forall n, m :: n in seen && n in schema && m in schema[n] ==> m in seen
    requires IsPath(schema, path) && path[0] in roots
    ensures path[|path| - 1] in seen
    decreases |path|
  {
    if |path| > 1 {
      var shorter := path[..|path| - 1];
      assert IsPath(schema, shorter) && shorter[0] == path[0];
      ClosedSetHoldsPath(schema, roots, seen, shorter);
    }
  }

  lemma EverythingReachedIsSeen(schema: Schema, roots: seq<Name>, seen: set<Name>, name: Name)
    requires forall r :: r in roots ==> r in seen
    requires forall n, m :: n in seen && n in schema && m in schema[n] ==> m in seen
    requires Reaches(schema, roots, name)
    ensures name in seen
  {
    var path :| IsPath(schema, path) && path[0] in roots && path[|path| - 1] == name;
    ClosedSetHoldsPath(schema, roots, seen, path);
  }

  /** The worklist ends on every finite schema, recursive ones included, and emits exactly the types the
      variables reach, each once. */
  method EmitInputObjects(schema: Schema, roots: seq<Name>) returns (emitted: seq<Name>)
    requires Closed(schema, roots)
    ensures forall name :: name in emitted <==> Reaches(schema, roots, name)
    ensures forall i, j :: 0 <= i < j < |emitted| ==> emitted[i] != emitted[j]
  {
    hide Reaches;
    emitted := [];
    var seen: set<Name>, queue := {}, roots;
    forall r | r in roots ensures Reaches(schema, roots, r) { RootIsReached(schema, roots, r); }
    while queue != []
      invariant seen <= schema.Keys
      invariant forall n :: n in queue ==> n in schema && Reaches(schema, roots, n)
      invariant forall n :: n in emitted <==> n in seen
      invariant forall n :: n in seen ==> Reaches(schema, roots, n)
      invariant forall i, j :: 0 <= i < j < |emitted| ==> emitted[i] != emitted[j]
      invariant forall r :: r in roots ==> r in seen || r in queue
      invariant forall n, m :: n in seen && m in schema[n] ==> m in seen || m in queue
      decreases schema.Keys - seen, |queue|
    {
      var item, rest := queue[0], queue[1..];
      assert queue == [item] + rest;
      if item in seen {
        queue := rest;
        continue;
      }
      seen := seen + {item};
      emitted := emitted + [item];
      forall m | m in schema[item] ensures Reaches(schema, roots, m) { MentionIsReached(schema, roots, item, m); }
      queue := rest + schema[item];
    }
    forall name | Reaches(schema, roots, name)
      ensures name in seen
    {
      EverythingReachedIsSeen(schema, roots, seen, name);
    }
  }
}
