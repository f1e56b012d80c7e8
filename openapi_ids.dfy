/** The frontend build step that shortens the OpenAPI operation ids: every operation with a
  * tag has a leading `<tag>-` removed from its `operationId`, and the document is written back
  * only when the whole rewrite succeeds. Reading and writing the file are parameters: the
  * parsed document is given (or its absence when reading or parsing fails), and the outcome
  * says whether the document was written and with what. */
module OpenApiIds {
  import opened Wrappers
  import opened Text
  import opened JsValues

  /** What reading a member of undefined or null, or calling `startsWith` on a value that is not
    * a string, throws. */
  const TypeErrorReason: string := "TypeError"

  /** `operation.tags && operation.tags.length > 0 ? operation.tags[0] : none` */
  function TagOf(op: Props): Option<JsValue>
  {
    var tags := Lookup(op, "tags");
    if tags.Arr? && |tags.elems| > 0 then Some(tags.elems[0])
    else if tags.Str? && |tags.s| > 0 then Some(Str([tags.s[0]]))
    else None
  }

  /** `${tag}-` */
  function Prefix(e: Engine, tag: JsValue): string
  {
    ToString(e, tag) + "-"
  }

  /** The loop body for one operation: a tagged operation whose id starts with the prefix loses
    * it; an untagged one, or one whose id does not start with it, is left as it is. */
  function RewriteOperation(e: Engine, op: JsValue): Result<JsValue>
  {
    match op
    case Undefined => Err(TypeErrorReason)
    case Null => Err(TypeErrorReason)
    case Obj(fields) =>
      (match TagOf(fields)
       case None => Ok(op)
       case Some(tag) =>
         var id := Lookup(fields, "operationId");
         var prefix := Prefix(e, tag);
         if !id.Str? then Err(TypeErrorReason)
         else if StartsWith(id.s, prefix) then Ok(Obj(Assign(fields, "operationId", Str(id.s[|prefix|..]))))
         else Ok(op))
    case _ => Ok(op)
  }

  /** The operations of a path item, rewritten in key order; the first failure stops it. */
  function RewriteEntries(e: Engine, entries: Props): Result<Props>
  {
    if |entries| == 0 then Ok([])
    else
      var n := |entries| - 1;
      var init :- RewriteEntries(e, entries[..n]);
      var op :- RewriteOperation(e, entries[n].1);
      Ok(init + [(entries[n].0, op)])
  }

  /** One path item: `Object.keys` of undefined or null throws; an object's own members are its
    * operations. */
  function RewritePathItem(e: Engine, item: JsValue): Result<JsValue>
  {
    match item
    case Undefined => Err(TypeErrorReason)
    case Null => Err(TypeErrorReason)
    case Obj(methods) =>
      var rewritten :- RewriteEntries(e, methods);
      Ok(Obj(rewritten))
    case _ => Ok(item)
  }

  function RewritePaths(e: Engine, paths: Props): Result<Props>
  {
    if |paths| == 0 then Ok([])
    else
      var n := |paths| - 1;
      var init :- RewritePaths(e, paths[..n]);
      var item :- RewritePathItem(e, paths[n].1);
      Ok(init + [(paths[n].0, item)])
  }

  /** The whole rewrite of a parsed document: its `paths` member visited path by path. */
  function RewriteDocument(e: Engine, doc: JsValue): Result<JsValue>
  {
    var paths := if doc.Obj? then Lookup(doc.fields, "paths") else Undefined;
    if doc.Undefined? || doc.Null? || paths.Undefined? || paths.Null? then Err(TypeErrorReason)
    else if paths.Obj? then
      var rewritten :- RewritePaths(e, paths.fields);
      Ok(Obj(Assign(doc.fields, "paths", Obj(rewritten))))
    else Ok(doc)
  }

  /** The nested `for ... of Object.keys(...)` loops, updating one operation at a time. */
  method ModifyPaths(e: Engine, paths: Props) returns (r: Result<Props>)
    ensures r == RewritePaths(e, paths)
  {
    var done: Props := [];
    for i := 0 to |paths|
      invariant RewritePaths(e, paths[..i]) == Ok(done)
    {
      assert paths[..i + 1][..i] == paths[..i];
      var item := paths[i].1;
      if item.Undefined? || item.Null? {
        RewritePathsStops(e, paths, i + 1);
        return Err(TypeErrorReason);
      }
      if item.Obj? {
        var methods := item.fields;
        var rewritten: Props := [];
        for j := 0 to |methods|
          invariant RewriteEntries(e, methods[..j]) == Ok(rewritten)
        {
          assert methods[..j + 1][..j] == methods[..j];
          var op := RewriteOperation(e, methods[j].1);
          if op.Err? {
            RewriteEntriesStops(e, methods, j + 1);
            assert RewritePathItem(e, item).Err?;
            RewritePathsStops(e, paths, i + 1);
            return Err(op.error);
          }
          rewritten := rewritten + [(methods[j].0, op.value)];
        }
        assert methods[..|methods|] == methods;
        item := Obj(rewritten);
      }
      done := done + [(paths[i].0, item)];
    }
    assert paths[..|paths|] == paths;
    r := Ok(done);
  }

  /** Once a prefix fails, the whole rewrite fails with the same error. */
  lemma {:induction false} RewritePathsStops(e: Engine, paths: Props, k: nat)
    requires k <= |paths| && RewritePaths(e, paths[..k]).Err?
    ensures RewritePaths(e, paths) == RewritePaths(e, paths[..k])
    decreases |paths| - k
  {
    if k < |paths| {
      assert paths[..k + 1][..k] == paths[..k];
      RewritePathsStops(e, paths, k + 1);
    } else {
      assert paths[..k] == paths;
    }
  }

  lemma {:induction false} RewriteEntriesStops(e: Engine, entries: Props, k: nat)
    requires k <= |entries| && RewriteEntries(e, entries[..k]).Err?
    ensures RewriteEntries(e, entries) == RewriteEntries(e, entries[..k])
    decreases |entries| - k
  {
    if k < |entries| {
      assert entries[..k + 1][..k] == entries[..k];
      RewriteEntriesStops(e, entries, k + 1);
    } else {
      assert entries[..k] == entries;
    }
  }

  /** One operation: it fails exactly when it is undefined or null, or is tagged with an id that
    * is not a string; otherwise only a tagged id starting with `<tag>-` changes, losing exactly
    * that prefix once, and every other member keeps its value and place. */
  lemma RewriteOperationSpec(e: Engine, op: JsValue)
    ensures RewriteOperation(e, op).Err? <==>
      (op.Undefined? || op.Null? || (op.Obj? && TagOf(op.fields).Some? && !Lookup(op.fields, "operationId").Str?))
    ensures RewriteOperation(e, op).Ok? && !(op.Obj? && TagOf(op.fields).Some?) ==> RewriteOperation(e, op).value == op
    ensures op.Obj? && TagOf(op.fields).Some? && Lookup(op.fields, "operationId").Str? ==>
      var id := Lookup(op.fields, "operationId").s;
      var prefix := Prefix(e, TagOf(op.fields).value);
      var r := RewriteOperation(e, op).value;
      r.Obj? &&
      (StartsWith(id, prefix) ==>
        Lookup(r.fields, "operationId") == Str(id[|prefix|..]) && prefix + id[|prefix|..] == id &&
        Keys(r.fields) == Keys(op.fields) &&
        forall k :: k != "operationId" ==> Lookup(r.fields, k) == Lookup(op.fields, k)) &&
      (!StartsWith(id, prefix) ==> r == op)
  {
    if op.Obj? && TagOf(op.fields).Some? && Lookup(op.fields, "operationId").Str? {
      LookupFound(op.fields, "operationId");
      var id := Lookup(op.fields, "operationId").s;
      var prefix := Prefix(e, TagOf(op.fields).value);
      if StartsWith(id, prefix) {
        assert prefix + id[|prefix|..] == id[..|prefix|] + id[|prefix|..];
        assert id[..|prefix|] + id[|prefix|..] == id;
      }
    }
  }

  /** A key whose lookup finds something is one of the object's keys. */
  lemma {:induction false} LookupFound(p: Props, key: string)
    requires Lookup(p, key) != Undefined
    ensures key in Keys(p)
  {
    if p[0].0 != key {
      LookupFound(p[1..], key);
      assert Keys(p) == [p[0].0] + Keys(p[1..]);
    } else {
      assert Keys(p)[0] == key;
    }
  }

  /** The entries keep their keys, in order, and each value is the rewrite of the one before;
    * the rewrite fails exactly when one of them does. */
  lemma {:induction false} RewriteEntriesSpec(e: Engine, entries: Props)
    ensures RewriteEntries(e, entries).Ok? <==> forall i :: 0 <= i < |entries| ==> RewriteOperation(e, entries[i].1).Ok?
    ensures RewriteEntries(e, entries).Ok? ==>
      var r := RewriteEntries(e, entries).value;
      |r| == |entries| &&
      forall i :: 0 <= i < |entries| ==> r[i] == (entries[i].0, RewriteOperation(e, entries[i].1).value)
  {
    if |entries| > 0 {
      var n := |entries| - 1;
      RewriteEntriesSpec(e, entries[..n]);
      assert forall i :: 0 <= i < n ==> entries[..n][i] == entries[i];
    }
  }

  /** The same for the paths: same keys in the same order, each item rewritten on its own. */
  lemma {:induction false} RewritePathsSpec(e: Engine, paths: Props)
    ensures RewritePaths(e, paths).Ok? <==> forall i :: 0 <= i < |paths| ==> RewritePathItem(e, paths[i].1).Ok?
    ensures RewritePaths(e, paths).Ok? ==>
      var r := RewritePaths(e, paths).value;
      |r| == |paths| &&
      forall i :: 0 <= i < |paths| ==> r[i] == (paths[i].0, RewritePathItem(e, paths[i].1).value)
  {
    if |paths| > 0 {
      var n := |paths| - 1;
      RewritePathsSpec(e, paths[..n]);
      assert forall i :: 0 <= i < n ==> paths[..n][i] == paths[i];
    }
  }

  /** What `modifyOpenAPIFile` leaves behind: the rewritten document, or nothing written (the
    * error is only logged). */
  datatype FileOutcome = Written(doc: JsValue) | NotWritten

  /** `modifyOpenAPIFile(filePath)`, given what reading and parsing the file produced. */
  function ModifyOpenApiFile(e: Engine, parsed: Option<JsValue>): FileOutcome
  {
    if parsed.None? then NotWritten
    else match RewriteDocument(e, parsed.value)
      case Ok(doc) => Written(doc)
      case Err(_) => NotWritten
  }

  /** The file is written exactly when it parses and every visited operation can be rewritten;
    * the written document keeps every member but `paths`, and `paths` keeps its keys. */
  lemma ModifyFileOutcome(e: Engine, parsed: Option<JsValue>)
    ensures ModifyOpenApiFile(e, parsed).Written? <==> parsed.Some? && RewriteDocument(e, parsed.value).Ok?
    ensures ModifyOpenApiFile(e, parsed).Written? && parsed.value.Obj? ==>
      var doc := parsed.value;
      var w := ModifyOpenApiFile(e, parsed).doc;
      w.Obj? && Keys(w.fields) == Keys(doc.fields) &&
      (forall k :: k != "paths" ==> Lookup(w.fields, k) == Lookup(doc.fields, k)) &&
      (Lookup(doc.fields, "paths").Obj? ==>
        Lookup(w.fields, "paths").Obj? &&
        |Lookup(w.fields, "paths").fields| == |Lookup(doc.fields, "paths").fields| &&
        forall i :: 0 <= i < |Lookup(doc.fields, "paths").fields| ==>
          Lookup(w.fields, "paths").fields[i].0 == Lookup(doc.fields, "paths").fields[i].0)
  {
    if parsed.Some? && parsed.value.Obj? && RewriteDocument(e, parsed.value).Ok? {
      var doc := parsed.value;
      var paths := Lookup(doc.fields, "paths");
      LookupFound(doc.fields, "paths");
      if paths.Obj? {
        RewritePathsSpec(e, paths.fields);
      }
    }
  }

  /** The prefix is removed once only: an id `users-users-read` tagged `users` becomes
    * `users-read`. */
  lemma RepeatedPrefixRemovedOnce(e: Engine)
    ensures var op := Obj([("tags", Arr([Str("users")])), ("operationId", Str("users-users-read"))]);
      RewriteOperation(e, op) == Ok(Obj([("tags", Arr([Str("users")])), ("operationId", Str("users-read"))]))
  {
    var op := Obj([("tags", Arr([Str("users")])), ("operationId", Str("users-users-read"))]);
    assert TagOf(op.fields) == Some(Str("users"));
    assert Prefix(e, Str("users")) == "users-";
    assert StartsWith("users-users-read", "users-");
    assert "users-users-read"[|"users-"|..] == "users-read";
    assert "tags" != "operationId" by {
      assert |"tags"| != |"operationId"|;
    }
    assert Lookup(op.fields, "operationId") == Str("users-users-read");
    assert Assign(op.fields[1..], "operationId", Str("users-read")) == [("operationId", Str("users-read"))];
    assert Assign(op.fields, "operationId", Str("users-read")) ==
      [("tags", Arr([Str("users")])), ("operationId", Str("users-read"))];
  }

  /** A tag that is not a prefix of the id leaves the operation as it is. */
  lemma ForeignTagKeepsId(e: Engine)
    ensures var op := Obj([("tags", Arr([Str("items")])), ("operationId", Str("users-read"))]);
      RewriteOperation(e, op) == Ok(op)
  {
    var op2 := Obj([("tags", Arr([Str("items")])), ("operationId", Str("users-read"))]);
    assert TagOf(op2.fields) == Some(Str("items"));
    assert Prefix(e, Str("items")) == "items-";
    assert !StartsWith("users-read", "items-") by {
      assert "users-read"[..6] != "items-" by {
        assert "users-read"[0] == 'u';
      }
    }
  }
}
