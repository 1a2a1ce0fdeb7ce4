/** The SQLAlchemy reflection the adapter relies on, replaced by plain data:
    a mapped class is its name and its ordered mapped attributes (columns
    with their python type and primary-key flag, relationships with their
    target class and `uselist`); a registry maps class names to classes, so
    that relationships can point back and forth. */
module Metadata {
  import opened Common

  /** The python types a column's `type.python_type` can report. */
  datatype PyType =
    | TextType | BinaryType | IntType | FloatType | DecimalType
    | DateTimeType | DateType | TimeDeltaType | TimeType | BoolType
    | ObjectType
    | OtherType(qualname: string)

  /** A column type either reports a python type or raises
      NotImplementedError (pickle-like column types). */
  datatype ColumnType = Typed(pythonType: PyType) | NoPythonType

  datatype AttrKind =
    | Column(columnType: ColumnType, primaryKey: bool)
    | RelationshipAttr(target: string, uselist: bool)

  datatype Attr = Attr(name: string, kind: AttrKind)

  datatype ModelClass = ModelClass(className: string, attrs: seq<Attr>)

  type Registry = map<string, ModelClass>

  /** `getattr(model, name)` restricted to mapped attributes. */
  function Lookup(attrs: seq<Attr>, name: string): (r: Option<AttrKind>)
    ensures r.None? <==> forall i :: 0 <= i < |attrs| ==> attrs[i].name != name
    ensures r.Some? ==> exists i :: 0 <= i < |attrs| && attrs[i].name == name && attrs[i].kind == r.value
    decreases |attrs|
  {
    if |attrs| == 0 then None
    else if attrs[0].name == name then Some(attrs[0].kind)
    else
      var r := Lookup(attrs[1..], name);
      assert forall i :: 1 <= i < |attrs| ==> attrs[i] == attrs[1..][i - 1];
      r
  }

  /** With distinct names, the lookup finds the attribute at its index. */
  lemma {:induction false} LookupAt(attrs: seq<Attr>, i: nat)
    requires i < |attrs|
    requires DistinctNames(attrs)
    ensures Lookup(attrs, attrs[i].name) == Some(attrs[i].kind)
    decreases |attrs|
  {
    if i > 0 {
      assert attrs[0].name != attrs[i].name;
      assert DistinctNames(attrs[1..]) by {
        forall j, k | 0 <= j < k < |attrs[1..]| ensures attrs[1..][j].name != attrs[1..][k].name {
          assert attrs[1..][j] == attrs[j + 1] && attrs[1..][k] == attrs[k + 1];
        }
      }
      LookupAt(attrs[1..], i - 1);
      assert attrs[1..][i - 1] == attrs[i];
    }
  }

  predicate DistinctNames(attrs: seq<Attr>) {
    forall j, k :: 0 <= j < k < |attrs| ==> attrs[j].name != attrs[k].name
  }

  /** A Python attribute name is a non-empty identifier, so it holds no dot. */
  predicate AttrNameOk(a: Attr) {
    |a.name| > 0 && '.' !in a.name
  }

  /** What every declarative registry satisfies: classes are registered
      under their own name, attribute names are identifiers and distinct
      within a class, and every relationship target is a mapped class. */
  predicate WellFormed(reg: Registry) {
    forall c :: c in reg ==>
      && reg[c].className == c
      && DistinctNames(reg[c].attrs)
      && forall i :: 0 <= i < |reg[c].attrs| ==>
           && AttrNameOk(reg[c].attrs[i])
           && (reg[c].attrs[i].kind.RelationshipAttr? ==> reg[c].attrs[i].kind.target in reg)
  }

  /** Every attribute a well-formed registry hands out is well-formed. */
  lemma LookupWellFormed(reg: Registry, c: string, name: string)
    requires WellFormed(reg) && c in reg
    requires Lookup(reg[c].attrs, name).Some?
    ensures |name| > 0 && '.' !in name
    ensures Lookup(reg[c].attrs, name).value.RelationshipAttr? ==> Lookup(reg[c].attrs, name).value.target in reg
  {
  }
}
