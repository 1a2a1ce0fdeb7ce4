/** `AlchemyManager._serialize_model_helper` of
    `ripozo_sqlalchemy/alchemymanager.py`: walks a nested field tree over a
    model instance, a list (or set, or query) of them, or None. */
module AlchemySerializer {
  import opened Common

  /** A field dict: ordered (name, sub-tree) entries. A sub-tree without
      entries is falsy (None or `{}` in the source). */
  datatype FieldDict = FieldDict(entries: seq<FieldEntry>)
  datatype FieldEntry = FieldEntry(name: string, sub: FieldDict)

  const NoFields := FieldDict([])

  /** `field_dict or self.dot_field_list_to_dict()`: a falsy field dict is
      replaced by the manager's default one. */
  function Resolve(fd: FieldDict, default: FieldDict): (r: FieldDict)
    ensures |fd.entries| > 0 ==> r == fd
    ensures |fd.entries| == 0 ==> r == default
  {
    if |fd.entries| > 0 then fd else default
  }

  /** `getattr(model, name)`: only an instance has named attributes. */
  function GetAttr(model: Value, name: string): (r: Result<Value>)
    ensures r.Ok? <==> model.Instance? && name in model.attrs
    ensures r.Ok? ==> r.value == model.attrs[name]
    ensures r.Err? ==> r.error == AttributeError(name)
  {
    if model.Instance? && name in model.attrs then Ok(model.attrs[name])
    else Err(AttributeError(name))
  }

  /** `serialize_model(model, field_dict)`. Every recursive call of the source
      goes through here, so the field dict is resolved at every level. */
  function Serialize(model: Value, fd: FieldDict, default: FieldDict): Result<Serialized>
    decreases Resolve(fd, default), model, 2, 0
  {
    SerializeWith(model, Resolve(fd, default), default)
  }

  /** The helper's body for an already resolved field dict. */
  function SerializeWith(model: Value, fd: FieldDict, default: FieldDict): Result<Serialized>
    requires Resolve(fd, default) == fd
    decreases fd, model, 1, 0
  {
    match model
    case Nil => Ok(SRaw(Nil))
    case Collection(items) => SerializeItems(model, fd, default, 0, [])
    case _ =>
      match SerializeFields(model, fd, default, 0, map[])
      case Ok(m) => Ok(SDict(m))
      case Err(e) => Err(e)
  }

  /** `[self.serialize_model(m, field_dict=field_dict) for m in model]`, from
      element i on, with the elements before i already in `acc`. */
  function SerializeItems(model: Value, fd: FieldDict, default: FieldDict, i: nat, acc: seq<Serialized>)
    : Result<Serialized>
    requires model.Collection? && i <= |model.items|
    requires Resolve(fd, default) == fd
    decreases fd, model, 0, |model.items| - i
  {
    if i == |model.items| then Ok(SList(acc))
    else
      match Serialize(model.items[i], fd, default)
      case Err(e) => Err(e)
      case Ok(s) => SerializeItems(model, fd, default, i + 1, acc + [s])
  }

  /** The loop that fills `model_dict`, from entry i on, with the entries
      before i already in `acc`. */
  function SerializeFields(model: Value, fd: FieldDict, default: FieldDict, i: nat,
                           acc: map<string, Serialized>): Result<map<string, Serialized>>
    requires i <= |fd.entries|
    requires Resolve(fd, default) == fd
    decreases fd, model, 0, |fd.entries| - i
  {
    if i == |fd.entries| then Ok(acc)
    else
      var entry := fd.entries[i];
      match GetAttr(model, entry.name)
      case Err(e) => Err(e)
      case Ok(value) =>
        if |entry.sub.entries| > 0 then
          match Serialize(value, entry.sub, default)
          case Err(e) => Err(e)
          case Ok(s) => SerializeFields(model, fd, default, i + 1, acc[entry.name := s])
        else SerializeFields(model, fd, default, i + 1, acc[entry.name := SRaw(value)])
  }

  /** `_serialize_model_helper`, written as the source runs it: resolve the
      field dict, answer None for None, serialize a list element by element,
      and otherwise fill a dict entry by entry. */
  method SerializeModelHelper(model: Value, fieldDict: FieldDict, default: FieldDict)
    returns (r: Result<Serialized>)
    ensures r == Serialize(model, fieldDict, default)
    decreases Resolve(fieldDict, default), model
  {
    var fd := Resolve(fieldDict, default);
    if model.Nil? {
      return Ok(SRaw(Nil));
    }
    if model.Collection? {
      var out: seq<Serialized> := [];
      for i := 0 to |model.items|
        invariant SerializeItems(model, fd, default, i, out) == SerializeItems(model, fd, default, 0, [])
      {
        var s := SerializeModelHelper(model.items[i], fd, default);
        if s.Err? {
          return Err(s.error);
        }
        out := out + [s.value];
      }
      return Ok(SList(out));
    }
    var modelDict: map<string, Serialized> := map[];
    for i := 0 to |fd.entries|
      invariant SerializeFields(model, fd, default, i, modelDict) == SerializeFields(model, fd, default, 0, map[])
    {
      var entry := fd.entries[i];
      var value := GetAttr(model, entry.name);
      if value.Err? {
        return Err(value.error);
      }
      if |entry.sub.entries| > 0 {
        var s := SerializeModelHelper(value.value, entry.sub, default);
        if s.Err? {
          return Err(s.error);
        }
        modelDict := modelDict[entry.name := s.value];
      } else {
        modelDict := modelDict[entry.name := SRaw(value.value)];
      }
    }
    return Ok(SDict(modelDict));
  }

  /** None serializes to None, under any field dict. */
  lemma SerializeNone(fd: FieldDict, default: FieldDict)
    ensures Serialize(Nil, fd, default) == Ok(SRaw(Nil))
  {
  }

  /** The elements from i on, given the first i already done. */
  lemma {:induction false} SerializeItemsShape(model: Value, fd: FieldDict, default: FieldDict, i: nat,
                                               acc: seq<Serialized>)
    requires model.Collection? && i <= |model.items| && |acc| == i
    requires Resolve(fd, default) == fd
    ensures var r := SerializeItems(model, fd, default, i, acc);
            && (r.Ok? <==> forall j :: i <= j < |model.items| ==> Serialize(model.items[j], fd, default).Ok?)
            && (r.Ok? ==> && r.value.SList?
                          && |r.value.items| == |model.items|
                          && r.value.items[..i] == acc
                          && forall j :: i <= j < |model.items|
                               ==> r.value.items[j] == Serialize(model.items[j], fd, default).value)
    decreases |model.items| - i
  {
    if i < |model.items| {
      var s := Serialize(model.items[i], fd, default);
      if s.Ok? {
        SerializeItemsShape(model, fd, default, i + 1, acc + [s.value]);
        var r := SerializeItems(model, fd, default, i + 1, acc + [s.value]);
        if r.Ok? {
          assert r.value.items[..i + 1] == acc + [s.value];
          assert r.value.items[..i] == (acc + [s.value])[..i];
          assert r.value.items[i] == (acc + [s.value])[i];
        }
      }
    }
  }

  /** A list or set serializes to a list of the same length whose elements
      are the elements serialized one by one under the same field dict; it
      fails exactly when one of its elements does. */
  lemma SerializeCollection(items: seq<Value>, fd: FieldDict, default: FieldDict)
    ensures var r := Serialize(Collection(items), fd, default);
            && (r.Ok? <==> forall j :: 0 <= j < |items| ==> Serialize(items[j], fd, default).Ok?)
            && (r.Ok? ==> && r.value.SList?
                          && |r.value.items| == |items|
                          && forall j :: 0 <= j < |items|
                               ==> r.value.items[j] == Serialize(items[j], fd, default).value)
  {
    var rfd := Resolve(fd, default);
    SerializeItemsShape(Collection(items), rfd, default, 0, []);
    forall j | 0 <= j < |items| ensures Serialize(items[j], rfd, default) == Serialize(items[j], fd, default) {
    }
  }

  predicate DistinctEntries(fd: FieldDict) {
    forall j, k :: 0 <= j < k < |fd.entries| ==> fd.entries[j].name != fd.entries[k].name
  }

  /** What one entry of the field dict contributes: the raw attribute value
      for a falsy sub-tree, the recursive serialization under a non-empty one. */
  function EntryValue(model: Value, entry: FieldEntry, default: FieldDict): Result<Serialized> {
    match GetAttr(model, entry.name)
    case Err(e) => Err(e)
    case Ok(value) =>
      if |entry.sub.entries| > 0 then Serialize(value, entry.sub, default) else Ok(SRaw(value))
  }

  lemma {:induction false} SerializeFieldsShape(model: Value, fd: FieldDict, default: FieldDict, i: nat,
                                                acc: map<string, Serialized>)
    requires i <= |fd.entries| && Resolve(fd, default) == fd
    requires DistinctEntries(fd)
    requires forall k :: i <= k < |fd.entries| ==> fd.entries[k].name !in acc
    ensures var r := SerializeFields(model, fd, default, i, acc);
            && (r.Ok? <==> forall k :: i <= k < |fd.entries| ==> EntryValue(model, fd.entries[k], default).Ok?)
            && (r.Ok? ==> && (forall x :: x in r.value <==> x in acc || exists k :: i <= k < |fd.entries| && fd.entries[k].name == x)
                          && (forall x :: x in acc ==> r.value[x] == acc[x])
                          && forall k :: i <= k < |fd.entries|
                               ==> r.value[fd.entries[k].name] == EntryValue(model, fd.entries[k], default).value)
    decreases |fd.entries| - i
  {
    if i < |fd.entries| {
      var entry := fd.entries[i];
      var ev := EntryValue(model, entry, default);
      if ev.Ok? {
        var acc' := acc[entry.name := ev.value];
        assert SerializeFields(model, fd, default, i, acc) == SerializeFields(model, fd, default, i + 1, acc');
        forall k | i + 1 <= k < |fd.entries| ensures fd.entries[k].name !in acc' {
          assert fd.entries[k].name != entry.name;
        }
        SerializeFieldsShape(model, fd, default, i + 1, acc');
      }
    }
  }

  /** A value that is neither None nor a list serializes to a dict with
      exactly the keys of the (resolved) field dict: a key with a falsy
      sub-tree maps to the raw attribute value, a key with a non-empty
      sub-tree to the serialization of that value under the sub-tree. It
      fails exactly when one of the keys fails (a missing attribute). */
  lemma SerializeObject(model: Value, fd: FieldDict, default: FieldDict)
    requires !model.Nil? && !model.Collection?
    requires DistinctEntries(Resolve(fd, default))
    ensures var rfd := Resolve(fd, default);
            var r := Serialize(model, fd, default);
            && (r.Ok? <==> forall k :: 0 <= k < |rfd.entries| ==> EntryValue(model, rfd.entries[k], default).Ok?)
            && (r.Ok? ==> && r.value.SDict?
                          && (forall x :: x in r.value.fields <==> exists k :: 0 <= k < |rfd.entries| && rfd.entries[k].name == x)
                          && forall k :: 0 <= k < |rfd.entries| ==>
                               && (|rfd.entries[k].sub.entries| == 0 ==>
                                     r.value.fields[rfd.entries[k].name] == SRaw(model.attrs[rfd.entries[k].name]))
                               && (|rfd.entries[k].sub.entries| > 0 ==>
                                     r.value.fields[rfd.entries[k].name]
                                     == Serialize(model.attrs[rfd.entries[k].name], rfd.entries[k].sub, default).value))
  {
    var rfd := Resolve(fd, default);
    SerializeFieldsShape(model, rfd, default, 0, map[]);
  }

  /** The nested example of the unit tests: `{first: None, second: {third: None}}`
      over an instance with first = 1 and second = an instance with third = 3
      gives `{first: 1, second: {third: 3}}`. */
  lemma NestedExample()
    ensures var second := FieldDict([FieldEntry("third", NoFields)]);
            var fd := FieldDict([FieldEntry("first", NoFields), FieldEntry("second", second)]);
            var model := Instance(map["first" := Scalar(1), "second" := Instance(map["third" := Scalar(3)])]);
            Serialize(model, fd, NoFields)
            == Ok(SDict(map["first" := SRaw(Scalar(1)), "second" := SDict(map["third" := SRaw(Scalar(3))])]))
  {
    var second := FieldDict([FieldEntry("third", NoFields)]);
    var fd := FieldDict([FieldEntry("first", NoFields), FieldEntry("second", second)]);
    var inner := Instance(map["third" := Scalar(3)]);
    var model := Instance(map["first" := Scalar(1), "second" := inner]);
    assert GetAttr(inner, "third") == Ok(Scalar(3));
    assert SerializeFields(inner, second, NoFields, 1, map["third" := SRaw(Scalar(3))])
        == Ok(map["third" := SRaw(Scalar(3))]);
    assert SerializeFields(inner, second, NoFields, 0, map[]) == Ok(map["third" := SRaw(Scalar(3))]);
    assert Serialize(inner, second, NoFields) == Ok(SDict(map["third" := SRaw(Scalar(3))]));
    assert GetAttr(model, "first") == Ok(Scalar(1));
    assert GetAttr(model, "second") == Ok(inner);
    assert fd.entries[1].sub == second;
    var done := map["first" := SRaw(Scalar(1)), "second" := SDict(map["third" := SRaw(Scalar(3))])];
    assert SerializeFields(model, fd, NoFields, 2, done) == Ok(done);
    assert SerializeFields(model, fd, NoFields, 1, map["first" := SRaw(Scalar(1))]) == Ok(done);
    assert SerializeFields(model, fd, NoFields, 0, map[]) == Ok(done);
  }
}
