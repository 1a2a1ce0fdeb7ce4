/** The older `AlchemyManager` of `ripozo_sqlalchemy/alcehmymanager.py`: an
    if-chain type mapping over table columns only, a zero-based page key
    with its own normalisation, a window without a next-page check and a
    query string for the next page, assignment of every given key, and a
    `delete` that returns None. */
module LegacyManager {
  import opened Common
  import opened Metadata
  import opened AlchemyFieldTypes
  import opened AlchemyPagination
  import opened AlchemyManager

  /** The if-chain of the legacy `get_field_type`. */
  function LegacyKindFor(t: PyType): FieldKind {
    if t == TextType || t == BinaryType then StringField
    else if t == IntType then IntegerField
    else if t == FloatType then FloatField
    else if t == DateTimeType then DateTimeField
    else if t == BoolType then BooleanField
    else BaseField
  }

  /** The two mappings agree except on Decimal, date, timedelta and time,
      which the legacy chain sends to BaseField. */
  lemma LegacyKindDiffers(t: PyType)
    ensures LegacyKindFor(t) != KindFor(t) <==> t in {DecimalType, DateType, TimeDeltaType, TimeType}
    ensures t in {DecimalType, DateType, TimeDeltaType, TimeType} ==> LegacyKindFor(t) == BaseField
  {
  }

  /** The legacy `get_field_type(name)`: only the columns of the model's
      table are looked at (a missing name, as a relationship or a dotted
      path, is a KeyError), and a column type without a python type lets
      NotImplementedError escape. */
  function LegacyGetFieldType(cls: ModelClass, name: string): (r: Result<Field>)
    ensures r.Ok? <==> Lookup(cls.attrs, name).Some? && Lookup(cls.attrs, name).value.Column?
                       && Lookup(cls.attrs, name).value.columnType.Typed?
    ensures r.Ok? ==> r.value == Field(LegacyKindFor(Lookup(cls.attrs, name).value.columnType.pythonType), name)
    ensures r.Err? ==> r.error == NotImplementedError || r.error == KeyError(name)
    ensures (Lookup(cls.attrs, name).Some? && Lookup(cls.attrs, name).value.Column?
             && Lookup(cls.attrs, name).value.columnType.NoPythonType?) ==> r == Err(NotImplementedError)
    ensures !(Lookup(cls.attrs, name).Some? && Lookup(cls.attrs, name).value.Column?) ==> r == Err(KeyError(name))
  {
    match Lookup(cls.attrs, name)
    case Some(Column(Typed(t), _)) => Ok(Field(LegacyKindFor(t), name))
    case Some(Column(NoPythonType, _)) => Err(NotImplementedError)
    case _ => Err(KeyError(name))
  }

  /** The page key ripozo hands over: absent (None), one value, or a list
      or tuple of values, any of which may be None. */
  datatype PageKey = NoKey | Key(k: int) | KeyList(ks: seq<Option<int>>)

  /** A list or tuple key becomes its first element (None when empty), and
      None becomes 0. */
  function NormalizePageKey(key: PageKey): (pk: int)
    ensures key.NoKey? ==> pk == 0
    ensures key.Key? ==> pk == key.k
    ensures key.KeyList? && |key.ks| == 0 ==> pk == 0
    ensures key.KeyList? && |key.ks| > 0 ==> pk == (if key.ks[0].Some? then key.ks[0].value else 0)
  {
    match key
    case NoKey => 0
    case Key(k) => k
    case KeyList(ks) => if |ks| == 0 then 0 else (match ks[0] case Some(k) => k case None => 0)
  }

  /** `q.limit(count).offset(pk * count)`: the SQL skips pk * count rows,
      then takes count rows. */
  function LegacyWindow<T>(rows: seq<T>, pk: int, count: int): seq<T> {
    LimitRows(OffsetRows(rows, pk * count), count)
  }

  /** For a non-negative zero-based page and a positive count, the legacy
      window holds the rows the current manager shows on one-based page
      pk + 1: the count rows after the first pk * count. */
  lemma LegacyWindowIsPage<T>(rows: seq<T>, pk: int, count: int)
    requires pk >= 0 && count >= 1
    ensures LegacyWindow(rows, pk, count) == SliceTo(Fetch(rows, pk, count), count)
    ensures |LegacyWindow(rows, pk, count)| <= count
  {
    FetchWindow(rows, pk, count, pk * count);
    SliceWindow(rows, pk * count, count);
  }

  /** The decimal digits of a natural number. */
  function NatToDecimal(n: nat): (s: string)
    ensures |s| > 0 && forall i :: 0 <= i < |s| ==> '0' <= s[i] <= '9'
    decreases n
  {
    if n < 10 then [Digit(n)] else NatToDecimal(n / 10) + [Digit(n % 10)]
  }

  function Digit(d: nat): (c: char)
    requires d < 10
    ensures '0' <= c <= '9'
  {
    (d + '0' as int) as char
  }

  /** `str(i)` for an integer. */
  function IntToDecimal(i: int): string {
    if i < 0 then "-" + NatToDecimal(-i) else NatToDecimal(i)
  }

  /** The value of a string of decimal digits. */
  function ParseNat(s: string): nat
    decreases |s|
  {
    if |s| == 0 then 0
    else
      var d := s[|s| - 1] as int - '0' as int;
      ParseNat(s[..|s| - 1]) * 10 + (if 0 <= d < 10 then d else 0)
  }

  /** `int(s)` for an optionally signed decimal. */
  function ParseInt(s: string): int {
    if |s| > 0 && s[0] == '-' then -(ParseNat(s[1..]) as int) else ParseNat(s)
  }

  lemma {:induction false} ParseNatDecimal(n: nat)
    ensures ParseNat(NatToDecimal(n)) == n
    decreases n
  {
    var s := NatToDecimal(n);
    if n >= 10 {
      ParseNatDecimal(n / 10);
      assert s[..|s| - 1] == NatToDecimal(n / 10);
      assert s[|s| - 1] == Digit(n % 10);
    }
  }

  /** Formatting an integer and reading it back gives the integer. */
  lemma ParseIntDecimal(i: int)
    ensures ParseInt(IntToDecimal(i)) == i
  {
    if i < 0 {
      ParseNatDecimal(-i);
      assert ("-" + NatToDecimal(-i))[1..] == NatToDecimal(-i);
    } else {
      ParseNatDecimal(i);
      assert NatToDecimal(i)[0] != '-';
    }
  }

  /** `'{0}={1}&{2}={3}'.format(page_arg, next_page, count_arg, count)`. */
  function NextQueryString(pageArg: string, nextPage: int, countArg: string, count: int): string {
    pageArg + "=" + IntToDecimal(nextPage) + "&" + countArg + "=" + IntToDecimal(count)
  }

  /** Reading the query string back: split at '&', then each part at '='. */
  function ParseNextQuery(query: string): Option<(string, int, string, int)> {
    var parts := Split(query, '&');
    if |parts| != 2 then None
    else
      var first, second := Split(parts[0], '='), Split(parts[1], '=');
      if |first| != 2 || |second| != 2 then None
      else Some((first[0], ParseInt(first[1]), second[0], ParseInt(second[1])))
  }

  lemma DecimalHasNoSep(i: int, sep: char)
    requires sep == '&' || sep == '='
    ensures sep !in IntToDecimal(i)
  {
    var s := IntToDecimal(i);
    if i < 0 {
      assert forall j :: 1 <= j < |s| ==> s[j] == NatToDecimal(-i)[j - 1];
    }
  }

  /** The next-page query string names the page argument with the next page
      and the count argument with the count, and reads back as exactly that
      (for argument names without '&' or '='). */
  lemma NextQueryRoundTrip(pageArg: string, nextPage: int, countArg: string, count: int)
    requires '&' !in pageArg && '=' !in pageArg && '&' !in countArg && '=' !in countArg
    ensures ParseNextQuery(NextQueryString(pageArg, nextPage, countArg, count))
            == Some((pageArg, nextPage, countArg, count))
  {
    var p, c := IntToDecimal(nextPage), IntToDecimal(count);
    DecimalHasNoSep(nextPage, '&');
    DecimalHasNoSep(nextPage, '=');
    DecimalHasNoSep(count, '&');
    DecimalHasNoSep(count, '=');
    var first := pageArg + "=" + p;
    var second := countArg + "=" + c;
    assert NextQueryString(pageArg, nextPage, countArg, count) == first + ['&'] + second;
    assert '&' !in first by {
      assert forall j :: 0 <= j < |first| ==> first[j] == (if j < |pageArg| then pageArg[j] else if j == |pageArg| then '=' else p[j - |pageArg| - 1]);
    }
    assert '&' !in second by {
      assert forall j :: 0 <= j < |second| ==> second[j] == (if j < |countArg| then countArg[j] else if j == |countArg| then '=' else c[j - |countArg| - 1]);
    }
    SplitAfterFirst(first, second, '&');
    SplitWithoutSep(second, '&');
    assert first == pageArg + ['='] + p;
    assert second == countArg + ['='] + c;
    SplitAfterFirst(pageArg, p, '=');
    SplitWithoutSep(p, '=');
    SplitAfterFirst(countArg, c, '=');
    SplitWithoutSep(c, '=');
    ParseIntDecimal(nextPage);
    ParseIntDecimal(count);
  }

  /** The legacy list meta: the next page number, the count and the
      next-page query string, under the manager's page, count and next
      argument names. */
  datatype LegacyMeta = LegacyMeta(page: int, count: int, next: string)

  function LegacyMetaFor(cfg: PageArgs, pk: int, count: int): LegacyMeta {
    LegacyMeta(pk + 1, count, NextQueryString(cfg.pageArg, pk + 1, cfg.countArg, count))
  }

  /** The meta of zero-based page pk names page pk + 1 as the next one,
      with the same count, and its query string says the same. */
  lemma LegacyMetaNext(cfg: PageArgs, pk: int, count: int)
    requires '&' !in cfg.pageArg && '=' !in cfg.pageArg && '&' !in cfg.countArg && '=' !in cfg.countArg
    ensures var m := LegacyMetaFor(cfg, pk, count);
            && m.page == pk + 1 && m.count == count
            && ParseNextQuery(m.next) == Some((cfg.pageArg, pk + 1, cfg.countArg, count))
  {
    NextQueryRoundTrip(cfg.pageArg, pk + 1, cfg.countArg, count);
  }

  /** `[getattr(obj, f) for f in self.fields]`, the first missing attribute
      raising AttributeError. */
  function FieldValues(obj: Value, fields: seq<string>): (r: Result<seq<Value>>)
    ensures r.Ok? <==> |fields| == 0 || (obj.Instance? && forall i :: 0 <= i < |fields| ==> fields[i] in obj.attrs)
    ensures r.Ok? ==> |r.value| == |fields| && forall i :: 0 <= i < |fields| ==> r.value[i] == obj.attrs[fields[i]]
    ensures r.Err? ==> r.error.AttributeError?
    decreases |fields|
  {
    if |fields| == 0 then Ok([])
    else if !obj.Instance? || fields[0] !in obj.attrs then Err(AttributeError(fields[0]))
    else
      match FieldValues(obj, fields[1..])
      case Err(e) => Err(e)
      case Ok(rest) =>
        assert forall i :: 1 <= i < |fields| ==> fields[i] == fields[1..][i - 1];
        Ok([obj.attrs[fields[0]]] + rest)
  }

  /** The legacy `serialize_model(obj)`: the values of the manager's fields,
      handed to ripozo's `serialize_fields`. */
  method LegacySerializeModel(obj: Value, fields: seq<string>, serializeFields: (seq<string>, seq<Value>) -> Serialized)
    returns (r: Result<Serialized>)
    ensures FieldValues(obj, fields).Ok? ==> r == Ok(serializeFields(fields, FieldValues(obj, fields).value))
    ensures FieldValues(obj, fields).Err? ==> r.Err? && r.error.AttributeError?
  {
    var values: seq<Value> := [];
    var i := 0;
    while i < |fields|
      invariant 0 <= i <= |fields| && |values| == i
      invariant i > 0 ==> obj.Instance?
      invariant forall j :: 0 <= j < i ==> fields[j] in obj.attrs && values[j] == obj.attrs[fields[j]]
    {
      if !obj.Instance? || fields[i] !in obj.attrs {
        return Err(AttributeError(fields[i]));
      }
      values := values + [obj.attrs[fields[i]]];
      i := i + 1;
    }
    assert values == FieldValues(obj, fields).value;
    r := Ok(serializeFields(fields, values));
  }

  /** The list part of the legacy `retrieve_list`: each row of the window
      serialized in order. */
  function SerializeRows(rows: seq<Value>, fields: seq<string>, serializeFields: (seq<string>, seq<Value>) -> Serialized)
    : (r: Result<seq<Serialized>>)
    ensures r.Ok? <==> forall i :: 0 <= i < |rows| ==> FieldValues(rows[i], fields).Ok?
    ensures r.Ok? ==> (&& |r.value| == |rows|
                       && forall i :: 0 <= i < |rows| ==> r.value[i] == serializeFields(fields, FieldValues(rows[i], fields).value))
    ensures r.Err? ==> r.error.AttributeError?
    decreases |rows|
  {
    if |rows| == 0 then Ok([])
    else
      var last := rows[|rows| - 1];
      match SerializeRows(rows[..|rows| - 1], fields, serializeFields)
      case Err(e) => Err(e)
      case Ok(front) =>
        match FieldValues(last, fields)
        case Err(e) => Err(e)
        case Ok(vs) => Ok(front + [serializeFields(fields, vs)])
  }

  /** The legacy `retrieve_list`: `count` and `key` are what ripozo's
      `get_pagination_count` and `get_pagination_pks` returned, and
      `filterBy(filters)` the filtered (and ordered) queryset. The key is
      normalised, the window taken, every row serialized, and the meta
      built for the next zero-based page. */
  method LegacyRetrieveList(cfg: PageArgs, count: int, key: PageKey, filters: map<string, int>,
                            filterBy: map<string, int> -> seq<Value>, fields: seq<string>,
                            serializeFields: (seq<string>, seq<Value>) -> Serialized)
    returns (r: Result<(seq<Serialized>, LegacyMeta)>)
    ensures var pk := NormalizePageKey(key);
            var window := LegacyWindow(filterBy(filters), pk, count);
            match SerializeRows(window, fields, serializeFields)
            case Ok(list) => r == Ok((list, LegacyMetaFor(cfg, pk, count)))
            case Err(_) => r.Err? && r.error.AttributeError?
  {
    var pk: int;
    match key {
      case KeyList(ks) =>
        if |ks| == 0 {
          pk := 0;
        } else {
          pk := if ks[0].Some? then ks[0].value else 0;
        }
      case Key(k) => pk := k;
      case NoKey => pk := 0;
    }
    assert pk == NormalizePageKey(key);
    var rows := LegacyWindow(filterBy(filters), pk, count);
    var serialized := SerializeRowList(rows, fields, serializeFields);
    match serialized {
      case Err(e) => return Err(e);
      case Ok(modelList) =>
        var nextPage := pk + 1;
        var queryArgs := NextQueryString(cfg.pageArg, nextPage, cfg.countArg, count);
        r := Ok((modelList, LegacyMeta(nextPage, count, queryArgs)));
    }
  }

  /** The loop of the legacy `retrieve_list`: serialize each row in turn,
      stopping at the first that fails. */
  method SerializeRowList(rows: seq<Value>, fields: seq<string>, serializeFields: (seq<string>, seq<Value>) -> Serialized)
    returns (r: Result<seq<Serialized>>)
    ensures match SerializeRows(rows, fields, serializeFields)
            case Ok(list) => r == Ok(list)
            case Err(_) => r.Err? && r.error.AttributeError?
  {
    var modelList: seq<Serialized> := [];
    var i := 0;
    while i < |rows|
      invariant 0 <= i <= |rows|
      invariant SerializeRows(rows[..i], fields, serializeFields) == Ok(modelList)
    {
      var s := LegacySerializeModel(rows[i], fields, serializeFields);
      match s {
        case Err(e) =>
          SerializeRowsPrefixErr(rows, i, fields, serializeFields);
          return Err(e);
        case Ok(v) =>
          SerializeRowsSnoc(rows, i, fields, serializeFields, modelList);
          modelList := modelList + [v];
      }
      i := i + 1;
    }
    assert rows[..i] == rows;
    r := Ok(modelList);
  }

  /** One more row serialized by the loop of `LegacyRetrieveList`. */
  lemma SerializeRowsSnoc(rows: seq<Value>, i: nat, fields: seq<string>,
                          serializeFields: (seq<string>, seq<Value>) -> Serialized, front: seq<Serialized>)
    requires i < |rows| && FieldValues(rows[i], fields).Ok?
    requires SerializeRows(rows[..i], fields, serializeFields) == Ok(front)
    ensures SerializeRows(rows[..i + 1], fields, serializeFields)
            == Ok(front + [serializeFields(fields, FieldValues(rows[i], fields).value)])
  {
    assert rows[..i + 1][..i] == rows[..i];
  }

  /** A row that does not serialize makes the whole list fail. */
  lemma SerializeRowsPrefixErr(rows: seq<Value>, i: nat, fields: seq<string>, serializeFields: (seq<string>, seq<Value>) -> Serialized)
    requires i < |rows| && FieldValues(rows[i], fields).Err?
    ensures SerializeRows(rows, fields, serializeFields).Err?
  {
  }

  /** The legacy `_get_model`: `queryset.get(pks)` found a row or None. */
  function LegacyGetModel<T>(found: Option<T>): (r: Result<T>)
    ensures r.Ok? <==> found.Some?
    ensures r.Ok? ==> r.value == found.value
    ensures r.Err? ==> r.error == NotFoundException
  {
    match found
    case Some(row) => Ok(row)
    case None => Err(NotFoundException)
  }

  /** The legacy `delete` returns None once the row is found. */
  function LegacyDelete<T>(found: Option<T>): (r: Result<Serialized>)
    ensures r.Ok? <==> found.Some?
    ensures r.Ok? ==> r.value == SRaw(Nil)
    ensures r.Err? ==> r.error == NotFoundException
  {
    match LegacyGetModel(found)
    case Ok(_) => Ok(SRaw(Nil))
    case Err(e) => Err(e)
  }

  /** Both deletes answer a found row with a falsy value, but not the same
      one: `{}` now, None in the legacy manager. */
  lemma DeleteResultsDiffer(row: Value)
    ensures DeleteResult([row]).Ok? && LegacyDelete(Some(row)).Ok?
    ensures Falsy(DeleteResult([row]).value) && Falsy(LegacyDelete(Some(row)).value)
    ensures DeleteResult([row]).value != LegacyDelete(Some(row)).value
  {
  }

  /** `for name, value in six.iteritems(values): setattr(model, name, value)`. */
  method AssignAll(model: ModelObject, values: map<string, Value>)
    modifies model
    ensures model.attrs == old(model.attrs) + values
  {
    var todo := values.Keys;
    ghost var seen: map<string, Value> := map[];
    assert old(model.attrs) + seen == old(model.attrs);
    while todo != {}
      invariant todo !! seen.Keys && todo + seen.Keys == values.Keys
      invariant forall k :: k in seen ==> seen[k] == values[k]
      invariant model.attrs == old(model.attrs) + seen
      decreases todo
    {
      var name :| name in todo;
      model.attrs := model.attrs[name := values[name]];
      seen := seen[name := values[name]];
      todo := todo - {name};
    }
    assert seen == values;
  }

  /** Without a whitelist every key is set: assignment through a whitelist
      that allows all keys of `values` is the same, and a key the whitelist
      refuses is set by the legacy manager alone. */
  lemma LegacyAssignsEverything(attrs: map<string, Value>, values: map<string, Value>, allowed: seq<string>)
    ensures (forall k :: k in values ==> k in allowed) ==> Assigned(attrs, values, allowed) == attrs + values
    ensures forall k :: k in values && k !in allowed && k !in attrs ==>
              k in attrs + values && k !in Assigned(attrs, values, allowed)
  {
    AssignedMeaning(attrs, values, allowed);
    if forall k :: k in values ==> k in allowed {
      var a, b := Assigned(attrs, values, allowed), attrs + values;
      assert forall k :: k in a <==> k in b;
      assert forall k :: k in a ==> a[k] == b[k];
    }
  }

  /** The legacy `create(values)`: a new instance with every value set,
      serialized with the manager's fields. */
  method LegacyCreate(initial: map<string, Value>, values: map<string, Value>, fields: seq<string>,
                      serializeFields: (seq<string>, seq<Value>) -> Serialized)
    returns (r: Result<Serialized>, model: ModelObject)
    ensures fresh(model)
    ensures model.attrs == initial + values
    ensures FieldValues(Instance(model.attrs), fields).Ok?
            ==> r == Ok(serializeFields(fields, FieldValues(Instance(model.attrs), fields).value))
    ensures FieldValues(Instance(model.attrs), fields).Err? ==> r.Err? && r.error.AttributeError?
  {
    model := new ModelObject(initial);
    AssignAll(model, values);
    r := LegacySerializeModel(Instance(model.attrs), fields, serializeFields);
  }

  /** The legacy `update(lookup_keys, updates)`: the found row gets every
      update; a missing row is NotFoundException and nothing changes. */
  method LegacyUpdate(found: Option<ModelObject>, updates: map<string, Value>, fields: seq<string>,
                      serializeFields: (seq<string>, seq<Value>) -> Serialized)
    returns (r: Result<Serialized>)
    modifies if found.Some? then {found.value} else {}
    ensures found.None? ==> r == Err(NotFoundException)
    ensures found.Some? ==> found.value.attrs == old(found.value.attrs) + updates
    ensures found.Some? && FieldValues(Instance(found.value.attrs), fields).Ok?
            ==> r == Ok(serializeFields(fields, FieldValues(Instance(found.value.attrs), fields).value))
    ensures found.Some? && FieldValues(Instance(found.value.attrs), fields).Err? ==> r.Err? && r.error.AttributeError?
  {
    match LegacyGetModel(found) {
      case Err(e) => r := Err(e);
      case Ok(model) =>
        AssignAll(model, updates);
        r := LegacySerializeModel(Instance(model.attrs), fields, serializeFields);
    }
  }
}
