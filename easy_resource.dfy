/** The model inspection of `ripozo_sqlalchemy/easy_resource.py`: the
    exposed field names of a model, its primary keys, the resource
    relationships derived from its ORM relationships, and the defaults
    `create_resource` fills in. */
module EasyResource {
  import opened Common
  import opened Metadata
  import opened AlchemyFieldTypes

  predicate IsPrimaryKey(a: Attr) {
    a.kind.Column? && a.kind.primaryKey
  }

  /** `_get_pks`: the names of the primary-key columns, in mapper order. */
  function PrimaryKeys(attrs: seq<Attr>): (pks: seq<string>)
    ensures |pks| <= |attrs|
    decreases |attrs|
  {
    if |attrs| == 0 then []
    else (if IsPrimaryKey(attrs[0]) then [attrs[0].name] else []) + PrimaryKeys(attrs[1..])
  }

  /** A name is a primary key exactly when some primary-key column has it. */
  lemma {:induction false} PrimaryKeysMembership(attrs: seq<Attr>, n: string)
    ensures n in PrimaryKeys(attrs) <==> exists i :: 0 <= i < |attrs| && IsPrimaryKey(attrs[i]) && attrs[i].name == n
    decreases |attrs|
  {
    if |attrs| > 0 {
      PrimaryKeysMembership(attrs[1..], n);
      if IsPrimaryKey(attrs[0]) && attrs[0].name == n {
        assert 0 <= 0 < |attrs| && IsPrimaryKey(attrs[0]) && attrs[0].name == n;
      }
      forall i | 1 <= i < |attrs| ensures attrs[i] == attrs[1..][i - 1] {}
      if exists i :: 1 <= i < |attrs| && IsPrimaryKey(attrs[i]) && attrs[i].name == n {
        var i :| 1 <= i < |attrs| && IsPrimaryKey(attrs[i]) && attrs[i].name == n;
        assert IsPrimaryKey(attrs[1..][i - 1]) && attrs[1..][i - 1].name == n;
      }
    }
  }

  /** One attribute contributes its name when it is a primary-key column,
      and nothing otherwise. */
  lemma PrimaryKeysOne(x: Attr)
    ensures PrimaryKeys([x]) == if IsPrimaryKey(x) then [x.name] else []
  {
    assert [x][1..] == [];
  }

  /** The keys of two attribute runs are those of the first followed by
      those of the second: with `PrimaryKeysOne`, one name per key column,
      in mapper order. */
  lemma {:induction false} PrimaryKeysAppend(a: seq<Attr>, b: seq<Attr>)
    ensures PrimaryKeys(a + b) == PrimaryKeys(a) + PrimaryKeys(b)
    decreases |a|
  {
    if |a| == 0 {
      assert a + b == b;
    } else {
      var head := if IsPrimaryKey(a[0]) then [a[0].name] else [];
      assert (a + b)[0] == a[0] && (a + b)[1..] == a[1..] + b;
      assert PrimaryKeys(a + b) == head + PrimaryKeys(a[1..] + b);
      PrimaryKeysAppend(a[1..], b);
      assert PrimaryKeys(a) == head + PrimaryKeys(a[1..]);
    }
  }

  /** `'{name}.{pk}'` for each primary key name. */
  function Dotted(name: string, pks: seq<string>): (r: seq<string>)
    ensures |r| == |pks|
    ensures forall k :: 0 <= k < |pks| ==> r[k] == name + "." + pks[k]
  {
    seq(|pks|, k requires 0 <= k < |pks| => name + "." + pks[k])
  }

  /** The primary keys whose names a relationship attribute of `model`
      contributes: those of `class_mapper(prop.class_)`. The attribute's
      `class_` is the class that owns it, `model` itself; relating to the
      target class's keys is how `get_field_type` resolves `rel.pk` through
      the related class (alchemymanager.py:103-106), and is what
      `asWritten == false` selects. */
  function RelatedPks(reg: Registry, model: string, target: string, asWritten: bool): seq<string>
    requires model in reg && target in reg
  {
    if asWritten then PrimaryKeys(reg[model].attrs) else PrimaryKeys(reg[target].attrs)
  }

  /** The field names one mapped attribute contributes: its own name for a
      column, one dotted name per related primary key for a relationship. */
  function AttrFields(reg: Registry, model: string, i: nat, asWritten: bool): seq<string>
    requires WellFormed(reg) && model in reg && i < |reg[model].attrs|
  {
    var a := reg[model].attrs[i];
    match a.kind
    case Column(_, _) => [a.name]
    case RelationshipAttr(target, _) => Dotted(a.name, RelatedPks(reg, model, target, asWritten))
  }

  /** The fields of the first n mapped attributes, in order. */
  function FieldsUpTo(reg: Registry, model: string, n: nat, asWritten: bool): seq<string>
    requires WellFormed(reg) && model in reg && n <= |reg[model].attrs|
  {
    if n == 0 then [] else FieldsUpTo(reg, model, n - 1, asWritten) + AttrFields(reg, model, n - 1, asWritten)
  }

  /** `_get_fields_for_model` exactly as written (own primary keys after
      each relationship name). */
  function FieldsForModelAsWritten(reg: Registry, model: string): seq<string>
    requires WellFormed(reg) && model in reg
  {
    FieldsUpTo(reg, model, |reg[model].attrs|, true)
  }

  /** `_get_fields_for_model` with the related class's primary keys. */
  function FieldsForModel(reg: Registry, model: string): seq<string>
    requires WellFormed(reg) && model in reg
  {
    FieldsUpTo(reg, model, |reg[model].attrs|, false)
  }

  /** `_get_fields_for_model(model)`: walk the mapped attributes, appending
      a column's name, or `rel.pk` for each primary key of a relationship's
      class. */
  method GetFieldsForModel(reg: Registry, model: string) returns (fields: seq<string>)
    requires WellFormed(reg) && model in reg
    ensures fields == FieldsForModel(reg, model)
  {
    var attrs := reg[model].attrs;
    fields := [];
    var i := 0;
    while i < |attrs|
      invariant 0 <= i <= |attrs|
      invariant fields == FieldsUpTo(reg, model, i, false)
    {
      var names := AttrFieldNames(reg, model, i);
      fields := fields + names;
      i := i + 1;
    }
  }

  /** The body of that loop for one mapped attribute: its key for a
      column, `rel.pk` for each primary key of a relationship's class. */
  method AttrFieldNames(reg: Registry, model: string, i: nat) returns (names: seq<string>)
    requires WellFormed(reg) && model in reg && i < |reg[model].attrs|
    ensures names == AttrFields(reg, model, i, false)
  {
    var a := reg[model].attrs[i];
    match a.kind {
      case RelationshipAttr(target, _) =>
        names := DottedNames(a.name, PrimaryKeys(reg[target].attrs));
      case Column(_, _) =>
        names := [a.name];
    }
  }

  /** The inner loop of `_get_fields_for_model`: `rel.pk` for each
      primary key, in order. */
  method DottedNames(name: string, pks: seq<string>) returns (dotted: seq<string>)
    ensures dotted == Dotted(name, pks)
  {
    dotted := [];
    var j := 0;
    while j < |pks|
      invariant 0 <= j <= |pks|
      invariant dotted == Dotted(name, pks[..j])
    {
      DottedSnoc(name, pks, j);
      dotted := dotted + [name + "." + pks[j]];
      j := j + 1;
    }
    assert pks[..j] == pks;
  }

  lemma DottedSnoc(name: string, pks: seq<string>, j: nat)
    requires j < |pks|
    ensures Dotted(name, pks[..j + 1]) == Dotted(name, pks[..j]) + [name + "." + pks[j]]
  {
  }

  /** A name is among the first n attributes' fields exactly when one of
      those attributes contributes it. */
  lemma FieldsUpToMembership(reg: Registry, model: string, n: nat, asWritten: bool, f: string)
    requires WellFormed(reg) && model in reg && n <= |reg[model].attrs|
    ensures f in FieldsUpTo(reg, model, n, asWritten)
            <==> exists i :: 0 <= i < n && f in AttrFields(reg, model, i, asWritten)
  {
    if f in FieldsUpTo(reg, model, n, asWritten) {
      var i := FieldsUpToSource(reg, model, n, asWritten, f);
    }
    forall i | 0 <= i < n && f in AttrFields(reg, model, i, asWritten)
      ensures f in FieldsUpTo(reg, model, n, asWritten)
    {
      FieldsUpToHas(reg, model, n, asWritten, i, f);
    }
  }

  lemma {:induction false} FieldsUpToHas(reg: Registry, model: string, n: nat, asWritten: bool, i: nat, f: string)
    requires WellFormed(reg) && model in reg && i < n <= |reg[model].attrs|
    requires f in AttrFields(reg, model, i, asWritten)
    ensures f in FieldsUpTo(reg, model, n, asWritten)
  {
    if i < n - 1 {
      FieldsUpToHas(reg, model, n - 1, asWritten, i, f);
    }
  }

  lemma {:induction false} FieldsUpToSource(reg: Registry, model: string, n: nat, asWritten: bool, f: string)
    returns (i: nat)
    requires WellFormed(reg) && model in reg && n <= |reg[model].attrs|
    requires f in FieldsUpTo(reg, model, n, asWritten)
    ensures i < n && f in AttrFields(reg, model, i, asWritten)
  {
    assert FieldsUpTo(reg, model, n, asWritten) == FieldsUpTo(reg, model, n - 1, asWritten) + AttrFields(reg, model, n - 1, asWritten);
    if f in AttrFields(reg, model, n - 1, asWritten) {
      i := n - 1;
    } else {
      i := FieldsUpToSource(reg, model, n - 1, asWritten, f);
    }
  }

  /** What one attribute contributes: a column its bare name; a
      relationship exactly `name.pk` for the primary keys of its target
      class, and never its bare name. */
  lemma AttrFieldsMeaning(reg: Registry, model: string, i: nat, f: string)
    requires WellFormed(reg) && model in reg && i < |reg[model].attrs|
    ensures var a := reg[model].attrs[i];
            && (a.kind.Column? ==> AttrFields(reg, model, i, false) == [a.name])
            && (a.kind.RelationshipAttr? ==>
                  && a.kind.target in reg
                  && (f in AttrFields(reg, model, i, false)
                      <==> exists k :: 0 <= k < |PrimaryKeys(reg[a.kind.target].attrs)|
                                      && f == a.name + "." + PrimaryKeys(reg[a.kind.target].attrs)[k])
                  && a.name !in AttrFields(reg, model, i, false))
  {
    var a := reg[model].attrs[i];
    assert AttrNameOk(a);
    if a.kind.RelationshipAttr? {
      var pks := PrimaryKeys(reg[a.kind.target].attrs);
      var r := AttrFields(reg, model, i, false);
      forall k | 0 <= k < |r| ensures r[k] != a.name {
        assert r[k] == a.name + "." + pks[k];
        assert |r[k]| > |a.name|;
      }
    }
  }

  /** No relationship is exposed under its bare name: a column cannot share
      its name (names are distinct) and a dotted name is no identifier. */
  lemma RelationshipNotBare(reg: Registry, model: string, j: nat)
    requires WellFormed(reg) && model in reg && j < |reg[model].attrs|
    requires reg[model].attrs[j].kind.RelationshipAttr?
    ensures reg[model].attrs[j].name !in FieldsForModel(reg, model)
  {
    var attrs := reg[model].attrs;
    var name := attrs[j].name;
    FieldsUpToMembership(reg, model, |attrs|, false, name);
    forall i | 0 <= i < |attrs| ensures name !in AttrFields(reg, model, i, false) {
      AttrFieldsMeaning(reg, model, i, name);
      if attrs[i].kind.RelationshipAttr? {
        var pks := PrimaryKeys(reg[attrs[i].kind.target].attrs);
        forall k | 0 <= k < |pks| ensures name != attrs[i].name + "." + pks[k] {
          var d := attrs[i].name + "." + pks[k];
          assert d[|attrs[i].name|] == '.';
          assert AttrNameOk(attrs[j]);
        }
      } else {
        assert i != j;
      }
    }
  }

  /** A related primary key resolves on the parent under its dotted name. */
  lemma RelatedKeyResolves(reg: Registry, model: string, i: nat, k: nat)
    requires WellFormed(reg) && model in reg && i < |reg[model].attrs|
    requires reg[model].attrs[i].kind.RelationshipAttr?
    requires reg[model].attrs[i].kind.target in reg
    requires k < |PrimaryKeys(reg[reg[model].attrs[i].kind.target].attrs)|
    ensures GetFieldType(reg, model, reg[model].attrs[i].name + "." + PrimaryKeys(reg[reg[model].attrs[i].kind.target].attrs)[k]).Ok?
  {
    var attrs := reg[model].attrs;
    var target := attrs[i].kind.target;
    var pks := PrimaryKeys(reg[target].attrs);
    LookupAt(attrs, i);
    DottedFieldType(reg, model, attrs[i].name, pks[k]);
    PrimaryKeysMembership(reg[target].attrs, pks[k]);
    var j :| 0 <= j < |reg[target].attrs| && IsPrimaryKey(reg[target].attrs[j]) && reg[target].attrs[j].name == pks[k];
    LookupAt(reg[target].attrs, j);
  }

  /** Every field the model exposes resolves to a field type: a column
      through its own type, `rel.pk` through the primary-key column of the
      relationship's target. */
  lemma FieldsResolve(reg: Registry, model: string, f: string)
    requires WellFormed(reg) && model in reg
    requires f in FieldsForModel(reg, model)
    ensures GetFieldType(reg, model, f).Ok?
  {
    var attrs := reg[model].attrs;
    FieldsUpToMembership(reg, model, |attrs|, false, f);
    var i :| 0 <= i < |attrs| && f in AttrFields(reg, model, i, false);
    AttrFieldsMeaning(reg, model, i, f);
    if attrs[i].kind.RelationshipAttr? {
      var pks := PrimaryKeys(reg[attrs[i].kind.target].attrs);
      var k :| 0 <= k < |pks| && f == attrs[i].name + "." + pks[k];
      RelatedKeyResolves(reg, model, i, k);
    } else {
      LookupAt(attrs, i);
    }
  }

  /** A parent with primary key `id` related to a child whose primary key
      is `code`. */
  function ExampleRegistry(): Registry {
    map[
      "Parent" := ModelClass("Parent", [Attr("id", Column(Typed(IntType), true)),
                                        Attr("children", RelationshipAttr("Child", true))]),
      "Child" := ModelClass("Child", [Attr("code", Column(Typed(TextType), true)),
                                      Attr("parent_id", Column(Typed(IntType), false))])
    ]
  }

  lemma ExampleRegistryWellFormed()
    ensures WellFormed(ExampleRegistry())
  {
    var reg := ExampleRegistry();
    assert reg["Parent"].attrs[0].name == "id" && reg["Parent"].attrs[1].name == "children";
    assert reg["Child"].attrs[0].name == "code" && reg["Child"].attrs[1].name == "parent_id";
    assert "id" != "children" && "code" != "parent_id";
    assert '.' !in "id" && '.' !in "children" && '.' !in "code" && '.' !in "parent_id";
  }

  lemma ExamplePrimaryKeys()
    ensures PrimaryKeys(ExampleRegistry()["Parent"].attrs) == ["id"]
    ensures PrimaryKeys(ExampleRegistry()["Child"].attrs) == ["code"]
  {
    var parent := ExampleRegistry()["Parent"].attrs;
    var child := ExampleRegistry()["Child"].attrs;
    assert parent[1..][1..] == [];
    assert PrimaryKeys(parent[1..]) == [];
    assert child[1..][1..] == [];
    assert PrimaryKeys(child[1..]) == [];
  }

  /** Proof step for the example lemmas: the two dotted names as literals. */
  lemma ExampleDottedNames()
    ensures "children" + "." + "id" == "children.id"
    ensures "children" + "." + "code" == "children.code"
  {
  }

  lemma ExampleFields()
    ensures WellFormed(ExampleRegistry())
    ensures FieldsForModelAsWritten(ExampleRegistry(), "Parent") == ["id", "children.id"]
    ensures FieldsForModel(ExampleRegistry(), "Parent") == ["id", "children.code"]
  {
    ExampleRegistryWellFormed();
    ExamplePrimaryKeys();
    var reg := ExampleRegistry();
    ExampleDottedNames();
    assert Dotted("children", ["id"]) == ["children.id"];
    assert Dotted("children", ["code"]) == ["children.code"];
    assert FieldsUpTo(reg, "Parent", 1, true) == ["id"];
    assert FieldsUpTo(reg, "Parent", 1, false) == ["id"];
  }

  lemma ExampleFieldTypes()
    ensures WellFormed(ExampleRegistry())
    ensures GetFieldType(ExampleRegistry(), "Parent", "children.id") == Err(AttributeError("id"))
    ensures GetFieldType(ExampleRegistry(), "Parent", "children.code").Ok?
  {
    ExampleRegistryWellFormed();
    ExampleDottedNames();
    var reg := ExampleRegistry();
    LookupAt(reg["Parent"].attrs, 1);
    DottedFieldType(reg, "Parent", "children", "id");
    DottedFieldType(reg, "Parent", "children", "code");
    ExampleChildFieldTypes();
  }

  lemma ExampleChildFieldTypes()
    ensures WellFormed(ExampleRegistry())
    ensures GetFieldPythonType(ExampleRegistry(), "Child", "id") == Err(AttributeError("id"))
    ensures GetFieldPythonType(ExampleRegistry(), "Child", "code").Ok?
  {
    ExampleRegistryWellFormed();
    var reg := ExampleRegistry();
    var child := reg["Child"].attrs;
    LookupAt(child, 0);
    assert Lookup(child, "id").None? by {
      assert child[0].name != "id" && child[1].name != "id";
    }
    UndottedNonColumn(reg, "Child", "id");
  }

  /** As written, the relationship's field carries the parent's own key
      name, and that name does not resolve on the child class; the
      corrected field uses the child's key and resolves. */
  lemma FieldsForModelCounterexample()
    ensures WellFormed(ExampleRegistry())
    ensures FieldsForModelAsWritten(ExampleRegistry(), "Parent") == ["id", "children.id"]
    ensures GetFieldType(ExampleRegistry(), "Parent", "children.id") == Err(AttributeError("id"))
    ensures FieldsForModel(ExampleRegistry(), "Parent") == ["id", "children.code"]
    ensures GetFieldType(ExampleRegistry(), "Parent", "children.code").Ok?
  {
    ExampleFields();
    ExampleFieldTypes();
  }

  /** The class of a ripozo resource relationship. */
  datatype RelationshipClass = Relationship | ListRelationship

  /** `Relationship(name, relation=...)` or `ListRelationship(...)`. */
  datatype ResourceRelationship = ResourceRelationship(cls: RelationshipClass, name: string, relation: string)

  /** The resource relationship for one ORM relationship: a list for
      `uselist`, named after the attribute, related to the target class's
      name. */
  function ToResourceRelationship(reg: Registry, a: Attr): (r: ResourceRelationship)
    requires a.kind.RelationshipAttr? && a.kind.target in reg
    ensures r.cls == ListRelationship <==> a.kind.uselist
    ensures r.name == a.name
    ensures WellFormed(reg) ==> r.relation == a.kind.target
  {
    ResourceRelationship(if a.kind.uselist then ListRelationship else Relationship, a.name, reg[a.kind.target].className)
  }

  /** The resource relationships of the first n mapped attributes. */
  function RelationshipsUpTo(reg: Registry, model: string, n: nat): seq<ResourceRelationship>
    requires WellFormed(reg) && model in reg && n <= |reg[model].attrs|
  {
    if n == 0 then []
    else
      var a := reg[model].attrs[n - 1];
      RelationshipsUpTo(reg, model, n - 1) + (if a.kind.RelationshipAttr? then [ToResourceRelationship(reg, a)] else [])
  }

  function RelationshipsOf(reg: Registry, model: string): seq<ResourceRelationship>
    requires WellFormed(reg) && model in reg
  {
    RelationshipsUpTo(reg, model, |reg[model].attrs|)
  }

  /** `_get_relationships(model)`: one resource relationship appended per
      ORM relationship, in mapper order. */
  method GetRelationships(reg: Registry, model: string) returns (relationships: seq<ResourceRelationship>)
    requires WellFormed(reg) && model in reg
    ensures relationships == RelationshipsOf(reg, model)
  {
    var attrs := reg[model].attrs;
    relationships := [];
    var i := 0;
    while i < |attrs|
      invariant 0 <= i <= |attrs|
      invariant relationships == RelationshipsUpTo(reg, model, i)
    {
      var a := attrs[i];
      if a.kind.RelationshipAttr? {
        var cls := if a.kind.uselist then ListRelationship else Relationship;
        relationships := relationships + [ResourceRelationship(cls, a.name, reg[a.kind.target].className)];
      }
      i := i + 1;
    }
  }

  /** Number of ORM relationships among the first n attributes. */
  function RelationshipCount(attrs: seq<Attr>, n: nat): nat
    requires n <= |attrs|
  {
    if n == 0 then 0 else RelationshipCount(attrs, n - 1) + (if attrs[n - 1].kind.RelationshipAttr? then 1 else 0)
  }

  /** One resource relationship per ORM relationship, each of them derived
      from an ORM relationship of the model, and every ORM relationship
      represented. */
  lemma {:induction false} RelationshipsUpToMeaning(reg: Registry, model: string, n: nat)
    requires WellFormed(reg) && model in reg && n <= |reg[model].attrs|
    ensures var rels := RelationshipsUpTo(reg, model, n);
            var attrs := reg[model].attrs;
            && |rels| == RelationshipCount(attrs, n)
            && (forall r :: r in rels <==>
                  exists i :: 0 <= i < n && attrs[i].kind.RelationshipAttr? && r == ToResourceRelationship(reg, attrs[i]))
  {
    if n > 0 {
      RelationshipsUpToMeaning(reg, model, n - 1);
    }
  }

  /** A model without relationships yields no resource relationships. */
  lemma {:induction false} NoRelationships(reg: Registry, model: string, n: nat)
    requires WellFormed(reg) && model in reg && n <= |reg[model].attrs|
    requires forall i :: 0 <= i < |reg[model].attrs| ==> reg[model].attrs[i].kind.Column?
    ensures RelationshipsUpTo(reg, model, n) == []
  {
    if n > 0 {
      NoRelationships(reg, model, n - 1);
    }
  }

  /** `[x for x in fields if x not in set(pks)]`. */
  function WithoutKeys(fields: seq<string>, pks: seq<string>): (r: seq<string>)
    ensures forall x :: x in r <==> x in fields && x !in pks
    ensures |r| <= |fields|
  {
    if |fields| == 0 then []
    else
      var rest := WithoutKeys(fields[1..], pks);
      assert forall x :: x in fields <==> x == fields[0] || x in fields[1..] by {
        assert fields == [fields[0]] + fields[1..];
      }
      (if fields[0] in pks then [] else [fields[0]]) + rest
  }

  /** The filter keeps order: it distributes over concatenation and leaves
      a list without keys as it is. */
  lemma {:induction false} WithoutKeysAppend(a: seq<string>, b: seq<string>, pks: seq<string>)
    ensures WithoutKeys(a + b, pks) == WithoutKeys(a, pks) + WithoutKeys(b, pks)
    decreases |a|
  {
    if |a| == 0 {
      assert a + b == b;
    } else {
      assert (a + b)[0] == a[0] && (a + b)[1..] == a[1..] + b;
      WithoutKeysAppend(a[1..], b, pks);
    }
  }

  lemma {:induction false} WithoutKeysNoKeys(fields: seq<string>, pks: seq<string>)
    requires forall i :: 0 <= i < |fields| ==> fields[i] !in pks
    ensures WithoutKeys(fields, pks) == fields
    decreases |fields|
  {
    if |fields| > 0 {
      WithoutKeysNoKeys(fields[1..], pks);
      assert [fields[0]] + fields[1..] == fields;
    }
  }

  /** The arguments of `create_resource` that have defaults; an empty
      sequence stands for None or an empty tuple. */
  datatype ResourceOptions = ResourceOptions(
    relationships: seq<ResourceRelationship>,
    autoRelationships: bool,
    pks: seq<string>,
    fields: seq<string>,
    listFields: seq<string>,
    createFields: seq<string>,
    updateFields: seq<string>)

  /** The resolved class attributes of the resource and its manager. */
  datatype ResourceConfig = ResourceConfig(
    relationships: seq<ResourceRelationship>,
    pks: seq<string>,
    fields: seq<string>,
    listFields: seq<string>,
    createFields: seq<string>,
    updateFields: seq<string>)

  /** The default resolution of `create_resource`. */
  function ResolveResource(reg: Registry, model: string, opts: ResourceOptions): ResourceConfig
    requires WellFormed(reg) && model in reg
  {
    var relationships := opts.relationships + (if opts.autoRelationships then RelationshipsOf(reg, model) else []);
    var pks := Or(opts.pks, PrimaryKeys(reg[model].attrs));
    var fields := Or(opts.fields, FieldsForModel(reg, model));
    ResourceConfig(
      relationships, pks, fields,
      Or(opts.listFields, fields),
      Or(opts.createFields, WithoutKeys(fields, pks)),
      Or(opts.updateFields, WithoutKeys(fields, pks)))
  }

  /** What `create_resource` resolves for any options: relationships are
      the caller's followed by the inspected ones when `auto_relationships`
      is on, only the caller's otherwise; the key, field and list-field
      defaults; and default create and update fields that are exactly the
      fields that are no primary key. */
  lemma ResolveResourceMeaning(reg: Registry, model: string, opts: ResourceOptions)
    requires WellFormed(reg) && model in reg
    ensures var cfg := ResolveResource(reg, model, opts);
            && (opts.autoRelationships ==> cfg.relationships == opts.relationships + RelationshipsOf(reg, model))
            && (!opts.autoRelationships ==> cfg.relationships == opts.relationships)
            && cfg.pks == (if |opts.pks| > 0 then opts.pks else PrimaryKeys(reg[model].attrs))
            && cfg.fields == (if |opts.fields| > 0 then opts.fields else FieldsForModel(reg, model))
            && cfg.listFields == (if |opts.listFields| > 0 then opts.listFields else cfg.fields)
            && (|opts.createFields| == 0 ==> forall x :: x in cfg.createFields <==> x in cfg.fields && x !in cfg.pks)
            && (|opts.updateFields| == 0 ==> forall x :: x in cfg.updateFields <==> x in cfg.fields && x !in cfg.pks)
            && (|opts.createFields| == 0 ==> cfg.createFields == WithoutKeys(cfg.fields, cfg.pks))
            && (|opts.updateFields| == 0 ==> cfg.updateFields == WithoutKeys(cfg.fields, cfg.pks))
  {
    assert opts.relationships + [] == opts.relationships;
  }

  /** With every option left at its default, the resource exposes all model
      fields, each of which resolves to a field type; creating and updating
      accept every field but the primary keys; and the relationships are
      the inspected ones. */
  lemma DefaultResource(reg: Registry, model: string)
    requires WellFormed(reg) && model in reg
    ensures var cfg := ResolveResource(reg, model, ResourceOptions([], true, [], [], [], [], []));
            && cfg.relationships == RelationshipsOf(reg, model)
            && cfg.pks == PrimaryKeys(reg[model].attrs)
            && cfg.fields == FieldsForModel(reg, model)
            && cfg.listFields == cfg.fields
            && (forall f :: f in cfg.fields ==> GetFieldType(reg, model, f).Ok?)
            && (forall x :: x in cfg.createFields <==> x in cfg.fields && x !in cfg.pks)
            && cfg.createFields == WithoutKeys(cfg.fields, cfg.pks)
            && cfg.updateFields == cfg.createFields
  {
    var cfg := ResolveResource(reg, model, ResourceOptions([], true, [], [], [], [], []));
    assert [] + RelationshipsOf(reg, model) == RelationshipsOf(reg, model);
    forall f | f in cfg.fields ensures GetFieldType(reg, model, f).Ok? {
      FieldsResolve(reg, model, f);
    }
  }
}
