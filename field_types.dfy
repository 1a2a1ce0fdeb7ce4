/** Field kinds of `ripozo_sqlalchemy/alchemymanager.py`: the table that maps
    a column's python type to a ripozo field class, resolution of a
    (possibly dotted) field name to a python type through relationships,
    and `get_field_type`. */
module AlchemyFieldTypes {
  import opened Common
  import opened Metadata

  /** The ripozo field classes, as an enumeration. */
  datatype FieldKind =
    | StringField | IntegerField | FloatField | DateTimeField | BooleanField | BaseField

  /** `field_class(name)`: a field instance of some kind for one name. */
  datatype Field = Field(kind: FieldKind, name: string)

  /** `_COLUMN_FIELD_MAP` as a lookup: None when the type is not a key. */
  function ColumnFieldMap(t: PyType): Option<FieldKind> {
    match t
    case TextType | BinaryType => Some(StringField)
    case IntType => Some(IntegerField)
    case FloatType | DecimalType => Some(FloatField)
    case DateTimeType | DateType | TimeDeltaType | TimeType => Some(DateTimeField)
    case BoolType => Some(BooleanField)
    case _ => None
  }

  /** The kind `get_field_type` picks for a python type. */
  function KindFor(t: PyType): FieldKind {
    match ColumnFieldMap(t)
    case Some(k) => k
    case None => BaseField
  }

  /** The table read the other way: for each field kind, exactly the python
      types that select it; every type outside the table selects BaseField. */
  lemma KindTable(t: PyType)
    ensures KindFor(t) == StringField <==> t in {TextType, BinaryType}
    ensures KindFor(t) == IntegerField <==> t == IntType
    ensures KindFor(t) == FloatField <==> t in {FloatType, DecimalType}
    ensures KindFor(t) == DateTimeField <==> t in {DateTimeType, DateType, TimeDeltaType, TimeType}
    ensures KindFor(t) == BooleanField <==> t == BoolType
    ensures KindFor(t) == BaseField <==> ColumnFieldMap(t).None?
    ensures t == ObjectType || t.OtherType? ==> KindFor(t) == BaseField
  {
  }

  /** `.type.python_type`, where NotImplementedError is answered with `object`. */
  function PythonTypeOf(ct: ColumnType): PyType {
    match ct
    case Typed(t) => t
    case NoPythonType => ObjectType
  }

  /** `_get_field_python_type(model, name)`. A column attribute answers its
      python type. Otherwise (no such attribute, or a relationship) the name
      is split at its dots: the first part must be a relationship, and the
      rest of the name is resolved on the relationship's target class. The
      only exception that escapes is AttributeError. For `col.x` with `col`
      a column, the source's AttributeError comes from `.comparator.mapper`
      on the column attribute and names no attribute; the name `col` the
      model attaches to it is the model's own choice. */
  function GetFieldPythonType(reg: Registry, model: string, name: string): (r: Result<PyType>)
    requires WellFormed(reg) && model in reg
    ensures r.Err? ==> r.error.AttributeError?
    decreases |name|
  {
    match Lookup(reg[model].attrs, name)
    case Some(Column(ct, _)) => Ok(PythonTypeOf(ct))
    case _ =>
      var parts := Split(name, '.');
      var head := parts[0];
      var rest := Join(parts[1..], '.');
      match Lookup(reg[model].attrs, head)
      case Some(RelationshipAttr(target, _)) =>
        LookupWellFormed(reg, model, head);
        SplitHeadAndRest(name, '.');
        GetFieldPythonType(reg, target, rest)
      case _ => Err(AttributeError(head))
  }

  /** `get_field_type(name)` on the manager's model: the field class the
      table gives for the python type, BaseField for any other type. */
  function GetFieldType(reg: Registry, model: string, name: string): (r: Result<Field>)
    requires WellFormed(reg) && model in reg
    ensures r.Ok? <==> GetFieldPythonType(reg, model, name).Ok?
    ensures r.Ok? ==> r.value == Field(KindFor(GetFieldPythonType(reg, model, name).value), name)
  {
    match GetFieldPythonType(reg, model, name)
    case Ok(t) => Ok(Field(KindFor(t), name))
    case Err(e) => Err(e)
  }

  /** A column attribute gets the field of its python type; a pickle-like
      column, whose type reports no python type, gets BaseField. */
  lemma ColumnFieldType(reg: Registry, model: string, name: string)
    requires WellFormed(reg) && model in reg
    requires Lookup(reg[model].attrs, name).Some? && Lookup(reg[model].attrs, name).value.Column?
    ensures GetFieldType(reg, model, name)
            == Ok(Field(KindFor(PythonTypeOf(Lookup(reg[model].attrs, name).value.columnType)), name))
    ensures Lookup(reg[model].attrs, name).value.columnType == NoPythonType
            ==> GetFieldType(reg, model, name) == Ok(Field(BaseField, name))
  {
  }

  /** A dotted name `rel.rest`, with `rel` a relationship of the model,
      resolves exactly as `rest` does on the relationship's target class;
      the field keeps the full dotted name. */
  lemma DottedFieldType(reg: Registry, model: string, rel: string, rest: string)
    requires WellFormed(reg) && model in reg
    requires Lookup(reg[model].attrs, rel).Some? && Lookup(reg[model].attrs, rel).value.RelationshipAttr?
    ensures Lookup(reg[model].attrs, rel).value.target in reg
    ensures GetFieldPythonType(reg, model, rel + "." + rest)
            == GetFieldPythonType(reg, Lookup(reg[model].attrs, rel).value.target, rest)
    ensures GetFieldType(reg, model, rel + "." + rest).Ok?
            ==> GetFieldType(reg, model, rel + "." + rest).value
                == Field(GetFieldType(reg, Lookup(reg[model].attrs, rel).value.target, rest).value.kind,
                         rel + "." + rest)
  {
    var name := rel + "." + rest;
    LookupWellFormed(reg, model, rel);
    assert '.' in name by { assert name[|rel|] == '.'; }
    assert Lookup(reg[model].attrs, name).None? by {
      forall i | 0 <= i < |reg[model].attrs| ensures reg[model].attrs[i].name != name {
        assert AttrNameOk(reg[model].attrs[i]);
      }
    }
    assert name == rel + ['.'] + rest;
    SplitAfterFirst(rel, rest, '.');
    JoinSplit(rest, '.');
    assert Split(name, '.')[1..] == Split(rest, '.');
  }

  /** A name that is neither dotted nor an attribute raises AttributeError
      for itself, and so does a bare relationship name (its empty remainder
      is no attribute of the target class). */
  lemma UndottedNonColumn(reg: Registry, model: string, name: string)
    requires WellFormed(reg) && model in reg
    requires '.' !in name
    requires Lookup(reg[model].attrs, name).None?
             || Lookup(reg[model].attrs, name).value.RelationshipAttr?
    ensures GetFieldType(reg, model, name).Err?
    ensures Lookup(reg[model].attrs, name).None?
            ==> GetFieldType(reg, model, name) == Err(AttributeError(name))
  {
    SplitWithoutSep(name, '.');
    assert Split(name, '.')[1..] == [];
    if Lookup(reg[model].attrs, name).Some? {
      var target := Lookup(reg[model].attrs, name).value.target;
      LookupWellFormed(reg, model, name);
      assert Split("", '.') == [""];
      assert Lookup(reg[target].attrs, "").None? by {
        forall i | 0 <= i < |reg[target].attrs| ensures reg[target].attrs[i].name != "" {
          assert AttrNameOk(reg[target].attrs[i]);
        }
      }
      assert GetFieldPythonType(reg, target, "") == Err(AttributeError(""));
    }
  }
}
