/** `AlchemyManager` of `ripozo_sqlalchemy/alchemymanager.py`: the
    `db_access_point` wrapper around every database call, `_get_model`,
    whitelisted assignment (`_set_values_on_model`), and the CRUD methods
    built from them. A lookup or filter is given as the rows it selects;
    the ORM calls themselves (add, commit, delete, filter_by) are not part
    of this model. */
module AlchemyManager {
  import opened Common
  import opened SessionHandlers
  import opened AlchemySerializer
  import opened AlchemyPagination

  /** The exception a wrapped call ended with, if any. */
  function ExceptionOf<T>(outcome: Result<T>): (exc: Option<Error>)
    ensures exc.Some? <==> outcome.Err?
    ensures exc.Some? ==> exc.value == outcome.error
  {
    match outcome
    case Ok(_) => None
    case Err(e) => Some(e)
  }

  /** `db_access_point`: the wrapped call has run against the handler's
      session and ended with `outcome`; the session is handled once, with
      the exception when there was one, and the outcome (value or the same
      exception) is passed on. Only exceptions derived from `Exception` are
      caught, and those are the failures `outcome` can carry. */
  method DbAccessPoint<T>(handler: Handler, outcome: Result<T>) returns (r: Result<T>)
    modifies SessionOf(handler)
    ensures r == outcome
    ensures SessionOf(handler).log == old(SessionOf(handler).log) + HandleEffect(handler, ExceptionOf(outcome))
  {
    var session := GetSession(handler);
    match outcome {
      case Err(e) =>
        HandleSession(handler, session, Some(e));
        r := Err(e);
      case Ok(v) =>
        HandleSession(handler, session, None);
        r := Ok(v);
    }
  }

  /** Whatever the call did, one `db_access_point` adds exactly one rollback
      when it failed and none when it succeeded, and the scoped handler
      closes the session once either way. */
  lemma DbAccessPointCounts<T>(handler: Handler, before: seq<SessionOp>, outcome: Result<T>)
    ensures Occurrences(before + HandleEffect(handler, ExceptionOf(outcome)), RollbackOp)
            == Occurrences(before, RollbackOp) + (if outcome.Err? then 1 else 0)
    ensures Occurrences(before + HandleEffect(handler, ExceptionOf(outcome)), CloseOp)
            == Occurrences(before, CloseOp) + (if handler.Scoped? then 1 else 0)
  {
    HandleEffectCounts(handler, before, ExceptionOf(outcome));
  }

  /** `_get_model`: `query.filter_by(**lookup_keys).one()` over the rows the
      lookup selects. No row is NotFoundException, several rows are
      MultipleResultsFound (which passes through). */
  function GetModel<T>(rows: seq<T>): (r: Result<T>)
    ensures r.Ok? <==> |rows| == 1
    ensures r.Ok? ==> r.value == rows[0]
    ensures |rows| == 0 ==> r == Err(NotFoundException)
    ensures |rows| > 1 ==> r == Err(MultipleResultsFound)
  {
    if |rows| == 0 then Err(NotFoundException)
    else if |rows| > 1 then Err(MultipleResultsFound)
    else Ok(rows[0])
  }

  /** The attributes after setting every whitelisted key of `values`. */
  function Assigned(attrs: map<string, Value>, values: map<string, Value>, allowed: seq<string>): map<string, Value> {
    map k | k in attrs.Keys + values.Keys && (k in attrs || k in allowed)
      :: if k in values && k in allowed then values[k] else attrs[k]
  }

  /** Exactly the whitelisted keys of `values` are set to their new values;
      every other attribute keeps its value, and no other attribute appears. */
  lemma AssignedMeaning(attrs: map<string, Value>, values: map<string, Value>, allowed: seq<string>)
    ensures var r := Assigned(attrs, values, allowed);
            && (forall k :: k in r <==> k in attrs || (k in values && k in allowed))
            && (forall k :: k in values && k in allowed ==> r[k] == values[k])
            && (forall k :: k in attrs && !(k in values && k in allowed) ==> r[k] == attrs[k])
  {
  }

  /** `_set_values_on_model(model, values, fields)`: `setattr` for each key
      of `values` that the whitelist allows, in any order; the same model is
      returned. */
  method SetValuesOnModel(model: ModelObject, values: map<string, Value>, fields: seq<string>, managerFields: seq<string>)
    returns (m: ModelObject)
    modifies model
    ensures m == model
    ensures model.attrs == Assigned(old(model.attrs), values, Or(fields, managerFields))
  {
    var allowed := Or(fields, managerFields);
    var todo := values.Keys;
    ghost var seen: map<string, Value> := map[];
    AssignedNothing(model.attrs, allowed);
    while todo != {}
      invariant todo !! seen.Keys && todo + seen.Keys == values.Keys
      invariant forall k :: k in seen ==> seen[k] == values[k]
      invariant model.attrs == Assigned(old(model.attrs), seen, allowed)
      decreases todo
    {
      var name :| name in todo;
      AssignedStep(old(model.attrs), seen, name, values[name], allowed);
      if name in allowed {
        model.attrs := model.attrs[name := values[name]];
      }
      seen := seen[name := values[name]];
      todo := todo - {name};
    }
    assert seen == values;
    m := model;
  }

  lemma AssignedNothing(attrs: map<string, Value>, allowed: seq<string>)
    ensures Assigned(attrs, map[], allowed) == attrs
  {
    var r := Assigned(attrs, map[], allowed);
    assert forall k :: k in r <==> k in attrs;
  }

  /** One more key handled by the loop of `SetValuesOnModel`. */
  lemma AssignedStep(attrs: map<string, Value>, seen: map<string, Value>, name: string, v: Value, allowed: seq<string>)
    requires name !in seen
    ensures Assigned(attrs, seen[name := v], allowed)
            == if name in allowed then Assigned(attrs, seen, allowed)[name := v] else Assigned(attrs, seen, allowed)
  {
    var before := Assigned(attrs, seen, allowed);
    var after := if name in allowed then before[name := v] else before;
    var target := Assigned(attrs, seen[name := v], allowed);
    assert forall k :: k in after <==> k in target;
    assert forall k :: k in after ==> after[k] == target[k];
  }

  /** The unit test of `_set_values_on_model`: with fields [first, second],
      values {first: 1, second: 2, third: 3} set first and second and leave
      third as it was. */
  lemma SetValuesExample(attrs: map<string, Value>)
    ensures var r := Assigned(attrs, map["first" := Scalar(1), "second" := Scalar(2), "third" := Scalar(3)],
                              Or(["first", "second"], []));
            && r["first"] == Scalar(1) && r["second"] == Scalar(2)
            && ("third" in r <==> "third" in attrs)
            && ("third" in attrs ==> r["third"] == attrs["third"])
  {
    var values := map["first" := Scalar(1), "second" := Scalar(2), "third" := Scalar(3)];
    assert "first" in values && "second" in values && "third" in values;
    assert "third" !in ["first", "second"];
  }

  /** What `delete` returns once the model is found: an empty dict. */
  function DeleteResult<T>(rows: seq<T>): (r: Result<Serialized>)
    ensures r.Ok? <==> |rows| == 1
    ensures r.Ok? ==> r.value == SDict(map[]) && Falsy(r.value)
    ensures r.Err? ==> r.error == GetModel(rows).error
  {
    match GetModel(rows)
    case Ok(_) => Ok(SDict(map[]))
    case Err(e) => Err(e)
  }

  /** `delete(lookup_keys)` through `db_access_point`. */
  method Delete(handler: Handler, rows: seq<Value>) returns (r: Result<Serialized>)
    modifies SessionOf(handler)
    ensures r == DeleteResult(rows)
    ensures SessionOf(handler).log == old(SessionOf(handler).log) + HandleEffect(handler, ExceptionOf(r))
  {
    var outcome := DeleteResult(rows);
    r := DbAccessPoint(handler, outcome);
  }

  /** `retrieve(lookup_keys)`: the found model serialized with the manager's
      default field dict. */
  method Retrieve(handler: Handler, rows: seq<Value>, default: FieldDict) returns (r: Result<Serialized>)
    modifies SessionOf(handler)
    ensures GetModel(rows).Err? ==> r == Err(GetModel(rows).error)
    ensures GetModel(rows).Ok? ==> r == Serialize(rows[0], NoFields, default)
    ensures SessionOf(handler).log == old(SessionOf(handler).log) + HandleEffect(handler, ExceptionOf(r))
  {
    var outcome: Result<Serialized>;
    match GetModel(rows) {
      case Err(e) => outcome := Err(e);
      case Ok(model) => outcome := SerializeModelHelper(model, NoFields, default);
    }
    r := DbAccessPoint(handler, outcome);
  }

  /** `create(values)`: a new instance with the whitelisted values set on
      it, serialized with the default field dict. */
  method Create(handler: Handler, initial: map<string, Value>, values: map<string, Value>,
                createFields: seq<string>, managerFields: seq<string>, default: FieldDict)
    returns (r: Result<Serialized>, model: ModelObject)
    modifies SessionOf(handler)
    ensures fresh(model)
    ensures model.attrs == Assigned(initial, values, Or(createFields, managerFields))
    ensures r == Serialize(Instance(model.attrs), NoFields, default)
    ensures SessionOf(handler).log == old(SessionOf(handler).log) + HandleEffect(handler, ExceptionOf(r))
  {
    model := new ModelObject(initial);
    model := SetValuesOnModel(model, values, createFields, managerFields);
    var outcome := SerializeModelHelper(Instance(model.attrs), NoFields, default);
    r := DbAccessPoint(handler, outcome);
  }

  /** `update(lookup_keys, updates)`: the found model gets the whitelisted
      updates; nothing changes when the lookup fails. */
  method Update(handler: Handler, rows: seq<ModelObject>, updates: map<string, Value>,
                updateFields: seq<string>, managerFields: seq<string>, default: FieldDict)
    returns (r: Result<Serialized>)
    modifies SessionOf(handler), rows
    ensures GetModel(rows).Err? ==> r == Err(GetModel(rows).error)
    ensures GetModel(rows).Err? ==> forall i :: 0 <= i < |rows| ==> rows[i].attrs == old(rows[i].attrs)
    ensures GetModel(rows).Ok? ==>
              && rows[0].attrs == Assigned(old(rows[0].attrs), updates, Or(updateFields, managerFields))
              && r == Serialize(Instance(rows[0].attrs), NoFields, default)
    ensures SessionOf(handler).log == old(SessionOf(handler).log) + HandleEffect(handler, ExceptionOf(r))
  {
    var outcome: Result<Serialized>;
    match GetModel(rows) {
      case Err(e) => outcome := Err(e);
      case Ok(model) =>
        var m := SetValuesOnModel(model, updates, updateFields, managerFields);
        outcome := SerializeModelHelper(Instance(m.attrs), NoFields, default);
    }
    r := DbAccessPoint(handler, outcome);
  }

  /** The caller's filter dict, which `retrieve_list` pops arguments out of. */
  class FilterDict {
    var items: map<string, int>

    constructor (items: map<string, int>)
      ensures this.items == items
    {
      this.items := items;
    }
  }

  /** `props, meta` of `retrieve_list`; `meta['links']` is `links`. */
  datatype ListResponse = ListResponse(props: Serialized, links: Links)

  /** `retrieve_list(filters)`: pops the count and page arguments out of the
      caller's dict, filters, windows and links as `ListPage` states, then
      serializes the page's rows with the list fields. */
  method RetrieveList(handler: Handler, cfg: PageArgs, filters: FilterDict,
                      filterBy: map<string, int> -> seq<Value>, listFields: FieldDict, default: FieldDict)
    returns (r: Result<ListResponse>)
    modifies SessionOf(handler), filters
    ensures filters.items == old(filters.items) - {cfg.countArg, cfg.pageArg}
    ensures var page := ListPage(cfg, old(filters.items), filterBy);
            match Serialize(Collection(page.rows), listFields, default)
            case Ok(props) => r == Ok(ListResponse(props, page.links))
            case Err(e) => r == Err(e)
    ensures SessionOf(handler).log == old(SessionOf(handler).log) + HandleEffect(handler, ExceptionOf(r))
  {
    ghost var page := ListPage(cfg, filters.items, filterBy);
    var count := Get(filters.items, cfg.countArg, cfg.paginateBy);
    filters.items := filters.items - {cfg.countArg};
    var pk := Get(filters.items, cfg.pageArg, 1);
    filters.items := filters.items - {cfg.pageArg};
    pk := pk - 1;
    assert filters.items == old(filters.items) - {cfg.countArg, cfg.pageArg};

    var query := filterBy(filters.items);
    if pk != 0 {
      query := OffsetRows(query, pk * count);
    }
    if count != 0 {
      query := LimitRows(query, count + 1);
    }
    var n := |query|;
    var next: Option<map<string, int>> := None;
    var previous: Option<map<string, int>> := None;
    if n > count {
      next := Some(map[cfg.pageArg := pk + 2, cfg.countArg := count]);
    }
    if pk > 0 {
      previous := Some(map[cfg.pageArg := pk, cfg.countArg := count]);
    }
    assert SliceTo(query, count) == page.rows && Links(next, previous) == page.links;

    var props := SerializeModelHelper(Collection(SliceTo(query, count)), listFields, default);
    var outcome: Result<ListResponse>;
    match props {
      case Ok(p) => outcome := Ok(ListResponse(p, Links(next, previous)));
      case Err(e) => outcome := Err(e);
    }
    r := DbAccessPoint(handler, outcome);
  }
}
