# ripozo-sqlalchemy bookkeeping, modelled in Dafny

ripozo-sqlalchemy binds SQLAlchemy models to ripozo resources. This project
models the bookkeeping it does itself. The ORM's sessions and queries stay
outside the model.

- **Field types.** The `_COLUMN_FIELD_MAP` table maps a column's python
  type to a ripozo field kind. Dotted names are resolved through
  relationships (`ripozo_sqlalchemy/alchemymanager.py`).
- **The recursive serializer** `_serialize_model_helper`, over a nested
  field dict.
- **Whitelisted assignment** `_set_values_on_model`. The model instance is a
  `ModelObject` class whose attribute map `setattr` updates in place.
- **Pagination** of `retrieve_list`:
  - the two pops out of the caller's filter dict;
  - the offset/limit window that fetches one extra row;
  - the `next`/`previous` link dicts;
  - the pages a client sees when it follows those links to the end.
- **The session lifecycle.** `db_access_point` and the two session
  handlers (`session_handlers.py`). A session is a class whose log records
  every `rollback()` and `close()`.
- **Resource derivation** of `easy_resource.py`:
  - field names, with `rel.pk` for relationships;
  - primary keys;
  - Relationship/ListRelationship entries;
  - the defaults that `create_resource` fills in.
- **The legacy manager** `alcehmymanager.py`:
  - its if-chain type mapping;
  - its page-key normalisation, window and next-page query string;
  - assignment of every key, with no whitelist;
  - its `_get_model`, and a `delete` that returns None.

SQLAlchemy's reflection becomes a `Registry` of `ModelClass` values (module
`Metadata`). Each class lists its mapped attributes in mapper order: columns
carry a python type and a primary-key flag, relationships a target class and
`uselist`. A query is the sequence of rows its filter selects. The filter
itself (`filter_by`) is a function parameter.

Modules:

| module | file |
|---|---|
| `Common` | `common.dfy` |
| `Metadata` | `metadata.dfy` |
| `AlchemyFieldTypes` | `field_types.dfy` |
| `AlchemySerializer` | `serializer.dfy` |
| `AlchemyPagination` | `pagination.dfy` |
| `SessionHandlers` | `session_handlers.dfy` |
| `AlchemyManager` | `manager.dfy` |
| `EasyResource` | `easy_resource.dfy` |
| `LegacyManager` | `legacy_manager.dfy` |

## Model

| member | source | states |
|---|---|---|
| Common.JoinSplit | ripozo_sqlalchemy/alchemymanager.py:104-106 | re-joining the parts of `name.split('.')` with '.' gives back the name |
| Common.SplitHeadAndRest | ripozo_sqlalchemy/alchemymanager.py:104-106 | the popped first part is the text before the first dot; the re-joined rest is the text after it (empty without a dot) and is shorter than the name |
| Metadata.Lookup | ripozo_sqlalchemy/alchemymanager.py:102 | an attribute lookup finds nothing exactly when no mapped attribute has that name, and otherwise finds the kind of an attribute with that name |
| AlchemyFieldTypes.KindTable | ripozo_sqlalchemy/alchemymanager.py:28-39 | for each field kind, exactly the python types that select it (text/bytes, int, float/Decimal, datetime/date/timedelta/time, bool); `object` and every type outside the table select BaseField |
| AlchemyFieldTypes.ColumnFieldMap | ripozo_sqlalchemy/alchemymanager.py:28-39 | `_COLUMN_FIELD_MAP` as a partial lookup; `KindTable` states which python types it maps to each kind and that it maps no other |
| AlchemyFieldTypes.PythonTypeOf | ripozo_sqlalchemy/alchemymanager.py:102-108 | a column's `type.python_type`, `object` for a type that raises NotImplementedError; `ColumnFieldType` states the field kind each case gets |
| AlchemyFieldTypes.GetFieldPythonType | ripozo_sqlalchemy/alchemymanager.py:90-109 | the only exception that escapes the resolution of a field name is AttributeError |
| AlchemyFieldTypes.GetFieldType | ripozo_sqlalchemy/alchemymanager.py:111-127 | succeeds exactly when the python type resolves; the field then has the kind the table gives for that type and keeps the full name |
| AlchemyFieldTypes.ColumnFieldType | ripozo_sqlalchemy/alchemymanager.py:101-109 | a column gets the field of its python type; a pickle-like column (NotImplementedError) gets BaseField |
| AlchemyFieldTypes.DottedFieldType | ripozo_sqlalchemy/alchemymanager.py:103-106 | `rel.rest`, with `rel` a relationship, resolves exactly as `rest` does on the relationship's target class, and the field keeps the dotted name |
| AlchemyFieldTypes.UndottedNonColumn | ripozo_sqlalchemy/alchemymanager.py:103-106 | an undotted name that is no attribute raises AttributeError for itself; a bare relationship name also fails |
| AlchemySerializer.Resolve | ripozo_sqlalchemy/alchemymanager.py:277 | a falsy field dict is replaced by the manager's default; a non-empty one is kept |
| AlchemySerializer.GetAttr | ripozo_sqlalchemy/alchemymanager.py:289 | `getattr` succeeds exactly on an instance that has the attribute, gives its value, and otherwise raises AttributeError for that name |
| AlchemySerializer.SerializeModelHelper | ripozo_sqlalchemy/alchemymanager.py:272-293 | the loop that fills `model_dict` computes exactly the recursive serialization `Serialize` |
| AlchemySerializer.Serialize | ripozo_sqlalchemy/alchemymanager.py:272-293 | the recursive `serialize_model`; `SerializeNone`, `SerializeCollection` and `SerializeObject` state its result for None, a collection and an instance |
| AlchemySerializer.SerializeWith | ripozo_sqlalchemy/alchemymanager.py:278-293 | the helper's dispatch on None, a collection, and an instance once the field dict is resolved; stated by the same three lemmas |
| AlchemySerializer.SerializeFields | ripozo_sqlalchemy/alchemymanager.py:287-293 | the `model_dict` loop; `SerializeFieldsShape` states its keys and values and when it fails |
| AlchemySerializer.SerializeNone | ripozo_sqlalchemy/alchemymanager.py:278-279 | None serializes to None under any field dict |
| AlchemySerializer.SerializeItemsShape | ripozo_sqlalchemy/alchemymanager.py:285 | the list comprehension keeps the elements already done and serializes each remaining element under the same field dict; it fails exactly when one element fails |
| AlchemySerializer.SerializeCollection | ripozo_sqlalchemy/alchemymanager.py:281-285 | a list, set or query serializes to a list of the same length whose elements are serialized one by one; it fails exactly when one element fails |
| AlchemySerializer.SerializeFieldsShape | ripozo_sqlalchemy/alchemymanager.py:287-293 | from entry i on, the loop adds exactly the remaining keys and keeps the keys already set; each key holds what its entry contributes; it fails exactly when one entry fails |
| AlchemySerializer.SerializeObject | ripozo_sqlalchemy/alchemymanager.py:287-293 | an instance serializes to a dict with exactly the keys of the field dict: a falsy sub-tree gives the raw value, a non-empty one the recursive serialization; it fails exactly when an attribute is missing |
| AlchemySerializer.NestedExample | ripozo_sqlalchemy_tests/unit/alchemy_manager.py:47-55 | `{first: None, second: {third: None}}` over first=1, second.third=3 gives `{first: 1, second: {third: 3}}` |
| AlchemyPagination.OffsetRows | ripozo_sqlalchemy/alchemymanager.py:192 | `offset(n)` drops the first n rows (all of them when n exceeds the count); a negative offset drops none |
| AlchemyPagination.LimitRows | ripozo_sqlalchemy/alchemymanager.py:194 | `limit(n)` keeps the first n rows; a negative limit keeps all |
| AlchemyPagination.SliceTo | ripozo_sqlalchemy/alchemymanager.py:207 | `query[:stop]` keeps the first `stop` rows (all when stop exceeds the count), or all but the last `-stop` for a negative stop, and none when `-stop` exceeds the count |
| AlchemyPagination.PopPageArgs | ripozo_sqlalchemy/alchemymanager.py:185-187 | after the two pops the caller's dict holds the filters minus the count and page arguments |
| AlchemyPagination.Fetch | ripozo_sqlalchemy/alchemymanager.py:191-194 | the offset and limit of the query; `FetchWindow` states which rows it holds |
| AlchemyPagination.MakeLinks | ripozo_sqlalchemy/alchemymanager.py:196-204 | the `next` and `previous` links; `PageWindow` states when each is present and what it holds |
| AlchemyPagination.ListPage | ripozo_sqlalchemy/alchemymanager.py:184-209 | the pagination of `retrieve_list`; `PageWindow`, `PageStep` and the walk lemmas state its rows and links |
| AlchemyPagination.FetchWindow | ripozo_sqlalchemy/alchemymanager.py:191-194 | for page index pk >= 0 and count >= 1 the fetch is the count + 1 rows that start at row pk * count |
| AlchemyPagination.SliceWindow | ripozo_sqlalchemy/alchemymanager.py:207 | the page shows the first count rows of that fetch, and there are more than count fetched rows exactly when rows exist beyond the page |
| AlchemyPagination.PageWindow | ripozo_sqlalchemy/alchemymanager.py:184-209 | for page p >= 1 and count c >= 1: the page arguments are removed from the filters; the page holds rows (p-1)c up to (p-1)c+c-1 of the filtered query, at most c of them; `next` is {page: p+1, count: c} exactly when a row exists beyond the page, and None otherwise; `previous` is {page: p-1, count: c} exactly when p > 1 |
| AlchemyPagination.DefaultsArePageOne | ripozo_sqlalchemy/alchemymanager.py:185-186 | a request without page and count arguments computes the same page as the explicit {page: 1, count: `paginate_by`} |
| AlchemyPagination.DefaultCount | ripozo_sqlalchemy/alchemymanager.py:185 | a request with only a page argument computes the same page as one that also gives `paginate_by` as its count |
| AlchemyPagination.PageDictArgs | ripozo_sqlalchemy/alchemymanager.py:200-204 | a link dict {page: p, count: c} is read back as page p and count c and leaves no filters |
| AlchemyPagination.PageStep | ripozo_sqlalchemy/alchemymanager.py:189-204 | on an unfiltered query, page p shows min(c, rows left) rows; it links to {p+1, c} exactly when rows remain beyond it, and to {p-1, c} exactly when p > 1 |
| AlchemyPagination.PageSizesCover | ripozo_sqlalchemy_tests/integration/pagination.py:84-154 | the reference page sizes add up to the rows remaining; every page but the last is full; the last holds between 1 and c rows, unless it is the only page and no rows remain |
| AlchemyPagination.PageSizesExact | ripozo_sqlalchemy_tests/integration/pagination.py:102-118 | k full pages plus a last page of r rows (0 < r <= c) are exactly k full pages followed by r |
| AlchemyPagination.ListPaginates | ripozo_sqlalchemy/alchemymanager.py:184-209 | for every count c >= 1, every page that starts within the unfiltered rows has the size and links `PageStep` states |
| AlchemyPagination.PageSizesStep | ripozo_sqlalchemy_tests/integration/pagination.py:84-118 | while more than c rows remain, the reference sizes are one full page followed by the sizes of the rest |
| AlchemyPagination.PageSizesLast | ripozo_sqlalchemy_tests/integration/pagination.py:84-118 | with at most c rows remaining, the reference sizes are one page of the remaining rows |
| AlchemyPagination.PageSizesFull | ripozo_sqlalchemy_tests/integration/pagination.py:84-100 | when the remaining rows are k >= 1 full pages, the reference sizes are k full pages |
| AlchemyPagination.ForwardWalk | ripozo_sqlalchemy_tests/integration/pagination.py:84-118 | over pages that paginate the rows, following `next` from any page that starts within them, with enough fuel, visits exactly the reference page sizes, to the end of the rows |
| AlchemyPagination.BackwardWalk | ripozo_sqlalchemy_tests/integration/pagination.py:120-154 | over pages that paginate the rows, following `previous` from page p visits p pages down to page 1, and every page before p is full |
| AlchemyPagination.SameWalk | ripozo_sqlalchemy/alchemymanager.py:184-209 | two requests that compute the same page lead to the same walk, in both directions |
| AlchemyPagination.WalkFromStart | ripozo_sqlalchemy/alchemymanager.py:185-204 | following `next` from a request with no page arguments visits the reference page sizes of `paginate_by` rows from row 0 |
| AlchemyPagination.BackwardFrom | ripozo_sqlalchemy_tests/integration/pagination.py:120-154 | a request that computes page p leads `previous` through p pages, all full but possibly page p, and all full when page p is |
| AlchemyPagination.WalkFromPage | ripozo_sqlalchemy/alchemymanager.py:185-204 | following `previous` from a request that names only page p visits p pages of `paginate_by` rows, the first possibly partial, all full when page p is |
| AlchemyPagination.ForwardHundred | ripozo_sqlalchemy_tests/integration/pagination.py:84-100 | 100 rows, ten per page, forward from the first request: ten pages of ten |
| AlchemyPagination.ForwardHundredOne | ripozo_sqlalchemy_tests/integration/pagination.py:102-118 | 101 rows forward: ten pages of ten, then one page of one row |
| AlchemyPagination.BackwardHundred | ripozo_sqlalchemy_tests/integration/pagination.py:120-136 | 100 rows, backward from page 10: ten pages of ten |
| AlchemyPagination.BackwardHundredOne | ripozo_sqlalchemy_tests/integration/pagination.py:138-154 | 101 rows, backward from page 11: the one-row page, then ten pages of ten |
| SessionHandlers.ScopedEffect | ripozo_sqlalchemy/session_handlers.py:50-52 | the scoped handler rolls back exactly once when an exception is passed (never otherwise), and closes exactly once, last |
| SessionHandlers.PlainEffect | ripozo_sqlalchemy/session_handlers.py:90-91 | the plain handler rolls back exactly once when an exception is passed (never otherwise) and never closes |
| SessionHandlers.ScopedSessionHandler.GetSession | ripozo_sqlalchemy/session_handlers.py:32-39 | the session handed out is the one the handler's registry holds |
| SessionHandlers.ScopedSessionHandler.HandleSession | ripozo_sqlalchemy/session_handlers.py:41-52 | the session's log gains exactly the scoped effect: rollback when an exception was given, then close |
| SessionHandlers.SessionHandler.constructor | ripozo_sqlalchemy/session_handlers.py:62-70 | the handler keeps the session it is given |
| SessionHandlers.SessionHandler.GetSession | ripozo_sqlalchemy/session_handlers.py:72-79 | every call returns the very session the handler was constructed with |
| SessionHandlers.SessionHandler.HandleSession | ripozo_sqlalchemy/session_handlers.py:81-91 | the session's log gains a rollback exactly when an exception was given, and nothing else |
| SessionHandlers.GetSession | ripozo_sqlalchemy/alchemymanager.py:56 | `self.session_handler.get_session()` returns the session of whichever handler the manager holds |
| SessionHandlers.HandleSession | ripozo_sqlalchemy/alchemymanager.py:60-63 | `handle_session` changes the session's log by the effect of whichever handler the manager holds |
| SessionHandlers.HandleEffectCounts | ripozo_sqlalchemy/session_handlers.py:41-91 | handling a session adds one rollback exactly when an exception is passed; it adds one close with the scoped handler and none with the plain one |
| AlchemyManager.ExceptionOf | ripozo_sqlalchemy/alchemymanager.py:59-63 | an exception is passed to `handle_session` exactly when the wrapped call failed, and it is the call's own exception |
| AlchemyManager.DbAccessPoint | ripozo_sqlalchemy/alchemymanager.py:42-65 | the handler's session is handled once, with the exception when the call failed with an `Exception`; the result, or the same exception, is passed on unchanged |
| AlchemyManager.DbAccessPointCounts | ripozo_sqlalchemy/alchemymanager.py:56-64 | one wrapped call adds exactly one rollback when it failed with an `Exception` and none when it succeeded; the scoped handler closes once either way |
| AlchemyManager.GetModel | ripozo_sqlalchemy/alchemymanager.py:295-309 | `filter_by(...).one()` succeeds exactly on a single row and gives it; no row raises NotFoundException, several raise MultipleResultsFound |
| AlchemyManager.AssignedMeaning | ripozo_sqlalchemy/alchemymanager.py:311-328 | exactly the whitelisted keys of `values` take their new values; every other attribute keeps its value; no other attribute appears |
| AlchemyManager.Assigned | ripozo_sqlalchemy/alchemymanager.py:323-328 | the attributes after `_set_values_on_model`; `AssignedMeaning` states which keys change and to what |
| AlchemyManager.SetValuesOnModel | ripozo_sqlalchemy/alchemymanager.py:311-328 | the loop over `values`, in any order, leaves the model's attributes as `Assigned` describes, and returns the same model object |
| AlchemyManager.SetValuesExample | ripozo_sqlalchemy_tests/unit/alchemy_manager.py:14-20 | with fields [first, second], values {first: 1, second: 2, third: 3} set first and second and leave third as it was |
| AlchemyManager.DeleteResult | ripozo_sqlalchemy/alchemymanager.py:245-248 | delete answers a single found row with `{}`, which is falsy, and otherwise with `_get_model`'s exception |
| AlchemyManager.Delete | ripozo_sqlalchemy/alchemymanager.py:233-248 | `delete` through `db_access_point`: the result `DeleteResult` states, and the session handled with the failure, if any |
| AlchemyManager.Retrieve | ripozo_sqlalchemy/alchemymanager.py:152-169 | a lookup that fails passes its exception on; otherwise the found row is serialized with the default field dict; the session is handled with the outcome |
| AlchemyManager.Create | ripozo_sqlalchemy/alchemymanager.py:129-150 | a fresh model gets the whitelisted values (create fields, or else the manager's fields) and is serialized with the default field dict; the session is handled with the outcome |
| AlchemyManager.Update | ripozo_sqlalchemy/alchemymanager.py:211-231 | a failed lookup passes its exception on and changes no row; otherwise the found row gets the whitelisted updates and is serialized; the session is handled with the outcome |
| AlchemyManager.RetrieveList | ripozo_sqlalchemy/alchemymanager.py:171-209 | the caller's dict loses the count and page arguments; the response is the page `ListPage` states, serialized with the list fields, with its links; a serialization failure is passed on; the session is handled with the outcome |
| EasyResource.PrimaryKeys | ripozo_sqlalchemy/easy_resource.py:36-45 | `_get_pks` yields no more names than there are attributes; its names and their order are stated by the three lemmas below |
| EasyResource.PrimaryKeysMembership | ripozo_sqlalchemy/easy_resource.py:45 | a name is among the keys exactly when some primary-key column has it |
| EasyResource.PrimaryKeysOne | ripozo_sqlalchemy/easy_resource.py:45 | one attribute contributes its name exactly when it is a primary-key column, and nothing otherwise |
| EasyResource.PrimaryKeysAppend | ripozo_sqlalchemy/easy_resource.py:45 | the keys of two attribute runs are those of the first followed by those of the second; with `PrimaryKeysOne`, one name per key column, in mapper order |
| EasyResource.Dotted | ripozo_sqlalchemy/easy_resource.py:29-30 | one `name.pk` per primary key, in order |
| EasyResource.GetFieldsForModel | ripozo_sqlalchemy/easy_resource.py:16-33 | the nested loops build the field list `FieldsForModel` states, with the related class's primary keys |
| EasyResource.FieldsForModel | ripozo_sqlalchemy/easy_resource.py:16-33 | the corrected field list; `GetFieldsForModel` computes it, `AttrFieldsMeaning`, `FieldsUpToMembership` and `FieldsResolve` state its contents |
| EasyResource.FieldsForModelAsWritten | ripozo_sqlalchemy/easy_resource.py:16-33 | the field list as written, with the model's own keys after each relationship; `FieldsForModelCounterexample` shows it differs from the corrected one |
| EasyResource.DottedNames | ripozo_sqlalchemy/easy_resource.py:29-30 | the inner loop appends exactly `name.pk` for each primary key, in order |
| EasyResource.AttrFieldNames | ripozo_sqlalchemy/easy_resource.py:27-32 | the loop body for one attribute appends exactly that attribute's fields: its key for a column, `rel.pk` per primary key of the related class for a relationship (the corrected reading of line 29) |
| EasyResource.DottedSnoc | ripozo_sqlalchemy/easy_resource.py:29-30 | one more primary key appends one more dotted name |
| EasyResource.FieldsUpToMembership | ripozo_sqlalchemy/easy_resource.py:25-33 | a name is in the field list exactly when some mapped attribute contributes it |
| EasyResource.FieldsUpToHas | ripozo_sqlalchemy/easy_resource.py:25-33 | every name an attribute contributes is in the field list |
| EasyResource.FieldsUpToSource | ripozo_sqlalchemy/easy_resource.py:25-33 | every name in the field list is contributed by some attribute |
| EasyResource.AttrFieldsMeaning | ripozo_sqlalchemy/easy_resource.py:27-32 | a column contributes its bare name; a relationship contributes exactly `name.pk` for the primary keys of its target class, and never its bare name |
| EasyResource.RelationshipNotBare | ripozo_sqlalchemy/easy_resource.py:25-33 | no relationship appears in the field list under its bare name |
| EasyResource.RelatedKeyResolves | ripozo_sqlalchemy/easy_resource.py:29-30 | every `rel.pk` of a relationship's target class resolves to a field type on the model |
| EasyResource.FieldsResolve | ripozo_sqlalchemy/easy_resource.py:16-33 | every field of the (corrected) field list resolves through `get_field_type` |
| EasyResource.FieldsForModelCounterexample | ripozo_sqlalchemy/easy_resource.py:29 | as written, Parent(id) related to Child(code) yields `children.id`, which raises AttributeError("id"); the corrected list yields `children.code`, which resolves |
| EasyResource.ExamplePrimaryKeys | ripozo_sqlalchemy/easy_resource.py:36-45 | the example Parent's primary keys are `id`, Child's are `code` |
| EasyResource.ExampleFields | ripozo_sqlalchemy/easy_resource.py:16-33 | the example's as-written field list is `id, children.id`, the corrected one `id, children.code` |
| EasyResource.ExampleFieldTypes | ripozo_sqlalchemy/easy_resource.py:29 | in the example, `children.id` raises AttributeError("id") and `children.code` resolves |
| EasyResource.ExampleChildFieldTypes | ripozo_sqlalchemy/alchemymanager.py:89-108 | on the example Child, `id` raises AttributeError("id") and `code` resolves |
| EasyResource.ToResourceRelationship | ripozo_sqlalchemy/easy_resource.py:60-64 | a ListRelationship exactly when `uselist`, named after the attribute, with the target class name as `relation` |
| EasyResource.GetRelationships | ripozo_sqlalchemy/easy_resource.py:48-66 | the loop builds `RelationshipsOf`: one entry appended per ORM relationship, in mapper order |
| EasyResource.RelationshipsUpToMeaning | ripozo_sqlalchemy/easy_resource.py:58-66 | there is one resource relationship per ORM relationship, each derived from an ORM relationship of the model, and each ORM relationship is represented |
| EasyResource.RelationshipsOf | ripozo_sqlalchemy/easy_resource.py:48-66 | the relationships `_get_relationships` returns; `GetRelationships` computes it and `RelationshipsUpToMeaning` states its contents |
| EasyResource.NoRelationships | ripozo_sqlalchemy/easy_resource.py:58-66 | a model with only columns yields no relationships |
| EasyResource.WithoutKeys | ripozo_sqlalchemy/easy_resource.py:131-132 | the filtered list holds exactly the fields that are no primary key, and is no longer than `fields` |
| EasyResource.WithoutKeysAppend | ripozo_sqlalchemy/easy_resource.py:131-132 | the filter keeps order: it distributes over concatenation |
| EasyResource.WithoutKeysNoKeys | ripozo_sqlalchemy/easy_resource.py:131-132 | a field list without primary keys is kept as it is |
| Common.Or | ripozo_sqlalchemy/easy_resource.py:121-129 | `x or y` on sequences: x when non-empty, y otherwise; the manager's `fields or self.fields` (alchemymanager.py:323) is the same |
| EasyResource.ResolveResource | ripozo_sqlalchemy/easy_resource.py:121-132 | the defaults of `create_resource`; `ResolveResourceMeaning` and `DefaultResource` state them |
| EasyResource.ResolveResourceMeaning | ripozo_sqlalchemy/easy_resource.py:121-132 | with `auto_relationships` the relationships are the caller's followed by the inspected ones, otherwise only the caller's; the defaults of pks, fields and list fields; default create and update fields are the fields with the primary keys filtered out, in order (`WithoutKeys`), so exactly the fields that are no primary key |
| EasyResource.DefaultResource | ripozo_sqlalchemy/easy_resource.py:121-132 | with every option at its default: all model fields, each resolving to a field type; create and update fields are those fields with the keys filtered out, in order; the relationships are the inspected ones |
| LegacyManager.LegacyKindDiffers | ripozo_sqlalchemy/alcehmymanager.py:46-58 | the legacy chain agrees with the table except on Decimal, date, timedelta and time, which it sends to BaseField |
| LegacyManager.LegacyGetFieldType | ripozo_sqlalchemy/alcehmymanager.py:33-58 | succeeds exactly for a table column with a python type, giving the chain's kind; a name that is no table column (a missing name, a relationship or a dotted path) raises KeyError(name), and a column whose type has no python type raises NotImplementedError |
| LegacyManager.LegacyKindFor | ripozo_sqlalchemy/alcehmymanager.py:47-58 | the if-chain of the legacy `get_field_type`; `LegacyKindDiffers` states where it departs from the current table |
| LegacyManager.NormalizePageKey | ripozo_sqlalchemy/alcehmymanager.py:110-117 | a list or tuple key becomes its first element; an empty one, and None, become 0 |
| LegacyManager.LegacyWindow | ripozo_sqlalchemy/alcehmymanager.py:121 | `limit(count).offset(pk * count)`; `LegacyWindowIsPage` states that it is the current manager's page pk + 1 |
| LegacyManager.LegacyWindowIsPage | ripozo_sqlalchemy/alcehmymanager.py:121 | the legacy window skips pk * count rows and takes at most count: the rows the current manager shows on page pk + 1 |
| LegacyManager.NextQueryRoundTrip | ripozo_sqlalchemy/alcehmymanager.py:126-127 | the query string `page=<n>&count=<c>` reads back as exactly its two names and numbers |
| LegacyManager.NextQueryString | ripozo_sqlalchemy/alcehmymanager.py:126-127 | the next-page query string; `NextQueryRoundTrip` states that it reads back as its names and numbers |
| LegacyManager.LegacyMetaFor | ripozo_sqlalchemy/alcehmymanager.py:125-130 | the legacy meta; `LegacyMetaNext` states its page, count and query string |
| LegacyManager.LegacyMetaNext | ripozo_sqlalchemy/alcehmymanager.py:125-130 | the meta of page index pk names page pk + 1 and the same count, and its query string says the same |
| LegacyManager.FieldValues | ripozo_sqlalchemy/alcehmymanager.py:194-196 | the values of the manager's fields, in order; it fails with AttributeError exactly when one of them is missing |
| LegacyManager.LegacySerializeModel | ripozo_sqlalchemy/alcehmymanager.py:193-197 | the loop collects those values and hands them to `serialize_fields`; a missing field raises AttributeError |
| LegacyManager.SerializeRows | ripozo_sqlalchemy/alcehmymanager.py:122-124 | every row serialized in order; it fails with AttributeError exactly when some row lacks a field |
| LegacyManager.LegacyRetrieveList | ripozo_sqlalchemy/alcehmymanager.py:98-130 | the key is normalised, the window taken and every row serialized in order; the meta is built for the next page; a row that fails raises AttributeError |
| LegacyManager.SerializeRowList | ripozo_sqlalchemy/alcehmymanager.py:122-124 | the loop serializes every row in order, giving `SerializeRows`; when a row fails it raises AttributeError |
| LegacyManager.LegacyGetModel | ripozo_sqlalchemy/alcehmymanager.py:179-191 | a row found by `get` is returned; None raises NotFoundException |
| LegacyManager.LegacyDelete | ripozo_sqlalchemy/alcehmymanager.py:150-159 | delete returns None once the row is found, and NotFoundException otherwise |
| LegacyManager.DeleteResultsDiffer | ripozo_sqlalchemy/alcehmymanager.py:150-159 | both deletes answer a found row with a falsy value, but `{}` now and None in the legacy manager |
| LegacyManager.AssignAll | ripozo_sqlalchemy/alcehmymanager.py:77-78 | `setattr` of every key in any order: the attributes become the old ones overridden by all of `values` |
| LegacyManager.LegacyAssignsEverything | ripozo_sqlalchemy/alcehmymanager.py:145-146 | without a whitelist every key is set, the same as a whitelist that allows all keys; a key a whitelist refuses is set only by the legacy manager |
| LegacyManager.LegacyCreate | ripozo_sqlalchemy/alcehmymanager.py:60-81 | a fresh model gets every value and is serialized with the manager's fields; a missing field raises AttributeError |
| LegacyManager.LegacyUpdate | ripozo_sqlalchemy/alcehmymanager.py:132-148 | a missing row raises NotFoundException; the found row gets every update and is serialized with the manager's fields |

## Findings

| source | as written | input that shows it | evidently intended | confidence | as-written member | corrected member |
|---|---|---|---|---|---|---|
| ripozo_sqlalchemy/easy_resource.py:29 | `class_mapper(prop.class_)` takes the class that owns the relationship attribute, so each relationship contributes the model's own primary-key names | Parent (pk `id`, relationship `children` to Child), Child (pk `code`, column `parent_id`): the fields are `id, children.id`, and `children.id` raises AttributeError("id") in `get_field_type` | one `rel.pk` per primary key of the related class (`children.code`), because `get_field_type` resolves `rel.pk` through the related class (alchemymanager.py:103-106), so only the related class's keys resolve; the tests, where every primary key is `id`, are consistent with this reading but cannot tell the two apart | not executed | EasyResource.FieldsForModelAsWritten | EasyResource.FieldsForModel |

The counterexample is `EasyResource.FieldsForModelCounterexample`. The
corrected field list is the one `EasyResource.GetFieldsForModel` computes and
`EasyResource.ResolveResource` uses. `EasyResource.FieldsResolve` proves that
every field in it resolves. The repository's tests cannot see the
difference, because every model in them has primary key `id`.

## Left out

- The ORM's own operations are not modelled: `session.add`, `commit`,
  `delete`, `query`, `filter_by`, `order_by`, `count`, `one` and `get`.
  - A lookup is given as the rows it selects.
  - A filtered query is a function parameter from filters to rows.
  - `query.count()` on a limited query is the number of rows fetched.
- `make_json_safe`, `dot_field_list_to_dict` and ripozo's `serialize_fields`,
  `get_pagination_count` and `get_pagination_pks` are not part of this model.
  Their results enter as parameters: the default field dict, the list-field
  dict, the legacy serializer function, and the count and key.
- Attribute and filter values are abstracted: column values to integers,
  related objects to nested instances.
- A query given to the serializer is a list of its rows (`model.all()`).
- The thread-local behaviour of `scoped_session` (concurrency) is left out,
  and so is engine creation. The scoped handler's registry is one session.
- An exception outside `Exception` (`KeyboardInterrupt`, `SystemExit`,
  `GeneratorExit`) is not modelled. `db_access_point` catches only
  `Exception` (alchemymanager.py:59), so such an exception propagates
  without `handle_session`: no rollback and no close. `DbAccessPoint` and
  `DbAccessPointCounts` speak only of failures derived from `Exception`.
- A session keeps only the log of its `rollback()` and `close()` calls.
  Re-raising the exception is the `Err` result that `DbAccessPoint` passes on.
- Dynamic class creation in `create_resource` (`type(...)`,
  `ResourceMetaClass`) and resource registration are left out. Only the
  resolution of its defaults is modelled. The trivial `links`,
  `preprocessors` and `postprocessors` defaults (`or tuple()`) are left
  out too.
- Logging, the profiling scripts, `setup.py` and the package `__init__` files
  are left out.
- Python dict iteration order is not modelled. `SetValuesOnModel` and
  `AssignAll` set keys in an arbitrary order. Keys are distinct, so the
  result is the same in every order. `FieldsForModel` and
  `GetFieldsForModel` walk `model._sa_class_manager` (easy_resource.py:26)
  in mapper order, a fixed order the model chooses for that dict. The `set`
  branch of `_serialize_model_helper` (alchemymanager.py:284) is given a
  fixed order too, through the `Collection` sequence.
- The legacy `order_by` only reorders rows, so it is folded into the filtered
  query parameter.
- A column's attribute key is assumed to equal its column name. The legacy
  `get_field_type` looks columns up in the table by name.
- AlchemyPagination.WalkNext: the request sequence a client follows is
  bounded by a `fuel` count. ForwardWalk asks for at least as much fuel as
  rows remain, and BackwardWalk for at least p - 1 requests.
- AlchemyPagination.PageWindow: states the window for page >= 1 and
  count >= 1 only. Other values follow the same `OffsetRows`/`LimitRows`
  definitions, with SQLite's reading of negative offsets and limits, but no
  lemma describes them.
- LegacyManager.LegacyRetrieveList: the error case states only that an
  AttributeError is raised, not which field it names.
- LegacyManager.LegacyCreate: the legacy `create` may also fail in the
  ORM, which this model does not capture.
