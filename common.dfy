/** Shared vocabulary of the adapter: results and the exceptions that travel
    through it, attribute values of model instances, serialized output, the
    mutable model object that `setattr` writes to, and Python's `str.split`
    and `str.join` on a single separator character. */
module Common {

  datatype Option<+T> = None | Some(value: T)

  /** The exceptions that the modelled code raises or lets propagate. */
  datatype Error =
    | AttributeError(attr: string)   // getattr of an attribute that is not there
    | KeyError(key: string)          // a dictionary lookup of a missing key
    | NotImplementedError            // a column type that has no python type
    | NotFoundException              // ripozo's "no such resource"
    | MultipleResultsFound           // Query.one() when more than one row matches
    | Raised(tag: int)               // any other `Exception` subclass a wrapped database call raises

  datatype Result<+T> = Ok(value: T) | Err(error: Error)

  /** What `getattr` can return from a model instance: None, a column value
      (abstracted to an integer), a related instance, or the list of related
      instances of a `uselist` relationship (also a query's rows). */
  datatype Value =
    | Nil
    | Scalar(v: int)
    | Instance(attrs: map<string, Value>)
    | Collection(items: seq<Value>)

  /** The json-ready output of serialization: a raw attribute value, a dict
      built for an instance, or a list built for a list, set or query. */
  datatype Serialized =
    | SRaw(raw: Value)
    | SDict(fields: map<string, Serialized>)
    | SList(items: seq<Serialized>)

  /** `x or y` on sequences: x unless it is empty. */
  function Or<T>(x: seq<T>, y: seq<T>): (r: seq<T>)
    ensures |x| > 0 ==> r == x
    ensures |x| == 0 ==> r == y
  {
    if |x| > 0 then x else y
  }

  /** Python truthiness of a serialized response (`assert not response`). */
  predicate Falsy(s: Serialized) {
    match s
    case SRaw(v) => v == Nil || v == Scalar(0) || v == Collection([])
    case SDict(m) => m == map[]
    case SList(xs) => xs == []
  }

  /** A mapped model instance whose attributes `setattr` changes in place. */
  class ModelObject {
    var attrs: map<string, Value>

    constructor (attrs: map<string, Value>)
      ensures this.attrs == attrs
    {
      this.attrs := attrs;
    }
  }

  /** Python's `s.split(sep)` for a one-character separator. */
  function Split(s: string, sep: char): (parts: seq<string>)
    ensures |parts| >= 1
    decreases |s|
  {
    if |s| == 0 then [""]
    else
      var rest := Split(s[1..], sep);
      if s[0] == sep then [""] + rest
      else [[s[0]] + rest[0]] + rest[1..]
  }

  /** Python's `sep.join(parts)`. */
  function Join(parts: seq<string>, sep: char): string
    decreases |parts|
  {
    if |parts| == 0 then ""
    else if |parts| == 1 then parts[0]
    else parts[0] + [sep] + Join(parts[1..], sep)
  }

  /** Index of the first `sep` in `s`, or |s| when there is none. */
  function FirstIndex(s: string, sep: char): (i: nat)
    ensures i <= |s|
    ensures i < |s| ==> s[i] == sep
    ensures forall j :: 0 <= j < i ==> s[j] != sep
    ensures i == |s| <==> sep !in s
    decreases |s|
  {
    if |s| == 0 then 0
    else if s[0] == sep then 0
    else 1 + FirstIndex(s[1..], sep)
  }

  /** Joining what a split produced restores the string. */
  lemma {:induction false} JoinSplit(s: string, sep: char)
    ensures Join(Split(s, sep), sep) == s
    decreases |s|
  {
    if |s| > 0 {
      var rest := Split(s[1..], sep);
      JoinSplit(s[1..], sep);
      if s[0] == sep {
        assert Split(s, sep) == [""] + rest;
        assert Join([""] + rest, sep) == "" + [sep] + Join(rest, sep);
      } else {
        var parts := [[s[0]] + rest[0]] + rest[1..];
        assert Split(s, sep) == parts;
        if |rest| == 1 {
          assert Join(parts, sep) == [s[0]] + rest[0];
        } else {
          assert parts[1..] == rest[1..];
          assert Join(rest, sep) == rest[0] + [sep] + Join(rest[1..], sep);
          assert Join(parts, sep) == [s[0]] + rest[0] + [sep] + Join(rest[1..], sep);
        }
      }
    }
  }

  /** A string without the separator splits into itself alone. */
  lemma {:induction false} SplitWithoutSep(s: string, sep: char)
    requires sep !in s
    ensures Split(s, sep) == [s]
    decreases |s|
  {
    if |s| > 0 {
      assert sep !in s[1..] by {
        forall j | 0 <= j < |s[1..]| ensures s[1..][j] != sep { assert s[1..][j] == s[j + 1]; }
      }
      SplitWithoutSep(s[1..], sep);
      assert [s[0]] + s[1..] == s;
    }
  }

  /** Splitting `a + sep + b`, where `a` holds no separator, yields `a`
      followed by the parts of `b`. */
  lemma {:induction false} SplitAfterFirst(a: string, b: string, sep: char)
    requires sep !in a
    ensures Split(a + [sep] + b, sep) == [a] + Split(b, sep)
    decreases |a|
  {
    var s := a + [sep] + b;
    if |a| == 0 {
      assert s[0] == sep && s[1..] == b;
    } else {
      assert s[0] == a[0];
      assert s[1..] == a[1..] + [sep] + b;
      assert sep !in a[1..] by {
        forall j | 0 <= j < |a[1..]| ensures a[1..][j] != sep { assert a[1..][j] == a[j + 1]; }
      }
      SplitAfterFirst(a[1..], b, sep);
      assert [a[0]] + a[1..] == a;
    }
  }

  /** What `_get_field_python_type` takes from a split name: the first part
      is the text before the first separator and the re-joined remainder
      is the text after it (empty when there is no separator). */
  lemma SplitHeadAndRest(s: string, sep: char)
    ensures Split(s, sep)[0] == s[..FirstIndex(s, sep)]
    ensures Join(Split(s, sep)[1..], sep)
            == if FirstIndex(s, sep) < |s| then s[FirstIndex(s, sep) + 1..] else ""
    ensures |s| > 0 ==> |Join(Split(s, sep)[1..], sep)| < |s|
  {
    var i := FirstIndex(s, sep);
    if i == |s| {
      SplitWithoutSep(s, sep);
      assert s[..i] == s;
    } else {
      var a, b := s[..i], s[i + 1..];
      assert s == a + [sep] + b;
      assert sep !in a by {
        forall j | 0 <= j < |a| ensures a[j] != sep { assert a[j] == s[j]; }
      }
      SplitAfterFirst(a, b, sep);
      assert Split(s, sep)[1..] == Split(b, sep);
      JoinSplit(b, sep);
    }
  }
}
