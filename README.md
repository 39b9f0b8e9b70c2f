# dump_object: a verified model of the object-selection engine

`dump_object` is a Django management command from django-fixture-magic. It
dumps chosen database records as a JSON fixture. This project models the
part of `Command.handle` that decides which records are dumped and in what
order:

- checking the positional arguments `app_name.model_name id1 id2 …`;
- parsing the `--exclude_list` and `--filter_list` options into entry lists;
- choosing integer or string primary keys for the seed lookup;
- the `--kitchensink` walk, a first-in first-out traversal from the seed
  records through their related records. It uses a `priors` set against
  cycles and duplicates, and two name filters decide which records are
  serialized and expanded;
- handing the serialization order, reversed, to the serialize list.

Modules, one per component of the command:

- `Results` (results.dfy): `Option` and `Result`, which stand in for Python exceptions.
- `Text` (text.dfy): the Python 2 byte-string operations the command uses: `replace`, `split`, `strip`, `lower` and `int`.
- `OptionLists` (option_lists.dfy): the two list options.
- `Arguments` (arguments.dfy): argument validation and the choice of lookup.
- `Traversal` (traversal.dfy): the walk. `Visit` is a function that runs it turn by turn (`Step`). `Kitchensink` is the imperative loop, proved equal to `Visit`. The lemmas state what `Visit` computes.
- `Scenarios` (scenarios.dfy): the walk on a two-record cycle and on a diamond, worked out turn by turn.
- `DumpObject` (dump_object.dfy): `Handle`, the whole command up to the serializer.

The database is a parameter:
- `Database.hasModel` stands for `loading.get_model`;
- `Database.records` stands for `objects.filter(pk__in=…)` and `objects.all()`, taken never to raise;
- `World.related` stands for the accessors of `_meta.get_all_related_objects()` and the iteration of their `.all()`.

A record type `O` with `==` stands for model instances. Django compares them by model and primary key. The database is finite: `World.universe` holds every record, and `Closed` says that related records stay inside it.

The code and the descriptions of the tool disagree in places. The model follows the code:
- There is no depth bound, no fan-out cap, no hard/soft edge distinction, no dependency graph and no comparator sort in `handle`.
- An excluded or filtered record is skipped without being expanded. A walk cannot pass through it to other records.
- Zero ids is not an error. The assertion on line 44 is commented out, so the seeds are all records of the model.

## Model

| member | source | states |
|---|---|---|
| `Text.Replace` | fixture_magic/management/commands/dump_object.py:55 | `replace(' ', ',')` keeps the length, puts a comma at every space and leaves every other character as it was |
| `Text.Split` | fixture_magic/management/commands/dump_object.py:55 | `split(sep)` gives one more piece than there are separators, and no piece contains the separator |
| `Text.JoinSplit` | fixture_magic/management/commands/dump_object.py:55 | joining the pieces of a split with the separator gives back the original string |
| `Text.SplitAround` | fixture_magic/management/commands/dump_object.py:55 | a separator between two strings splits into the pieces of the first followed by the pieces of the second |
| `Text.Strip` | fixture_magic/management/commands/dump_object.py:54-56 | `strip()` is the slice between the leading and the trailing white space; it is empty exactly when the string is all white space, and otherwise starts and ends with a non-space |
| `Text.Lower` | fixture_magic/management/commands/dump_object.py:94 | `lower()` keeps the length and lowers every ASCII upper-case letter, position by position |
| `Text.LowerHasNoUpper` | fixture_magic/management/commands/dump_object.py:78 | a lowered string contains no upper-case letter |
| `Text.ParseShowInt` | fixture_magic/management/commands/dump_object.py:71 | `int(str(n)) == n` for every integer `n` |
| `Text.ParseInt` | fixture_magic/management/commands/dump_object.py:71 | `int(s)` succeeds exactly when the stripped string is non-empty, its first character is a digit or a sign followed by more characters, and every later character is a digit; a negative result comes only from a leading `-` |
| `Text.ParseIntRejects` | fixture_magic/management/commands/dump_object.py:71-74 | a character of the stripped id that is neither a digit nor a sign in front makes `int` raise `ValueError` |
| `Text.ParseIntRejectsBlank` | fixture_magic/management/commands/dump_object.py:71-74 | an all-white-space id, or a bare sign, makes `int` raise `ValueError` |
| `OptionLists.Entries` | fixture_magic/management/commands/dump_object.py:54-56 | the comprehension keeps at most one entry per piece; every entry is non-empty and has no white space at either end |
| `OptionLists.ParseList` | fixture_magic/management/commands/dump_object.py:53-57 | every parsed entry is non-empty, contains no space and no comma, and is stripped |
| `OptionLists.ParseListOfDefault` | fixture_magic/management/commands/dump_object.py:53-57 | the default option value `''` gives the empty list |
| `OptionLists.ParseListAround` | fixture_magic/management/commands/dump_object.py:53-57 | a comma or a space between two values concatenates their lists, so entries keep their left-to-right order |
| `OptionLists.ParseListOfEntry` | fixture_magic/management/commands/dump_object.py:59-63 | a well-formed entry on its own parses to the one-entry list holding it |
| `OptionLists.ParseListJoin` | fixture_magic/management/commands/dump_object.py:59-63 | round trip: well-formed entries joined with commas parse back to the same list |
| `Arguments.ParseArgs` | fixture_magic/management/commands/dump_object.py:39-51 | no arguments, and only then, gives "No object_class or id arguments supplied."; a class argument without exactly one dot, and only then, gives the `app_name.model_name` error; otherwise the two halves contain no dot and join with a dot to the class argument, and the ids are the remaining arguments |
| `Arguments.ParseAll` | fixture_magic/management/commands/dump_object.py:71 | `[int(i) for i in ids]` succeeds exactly when every id parses, and then gives each id's integer in order |
| `Arguments.SelectLookup` | fixture_magic/management/commands/dump_object.py:69-76 | no ids means all records; otherwise the integer keys of every id when all parse, else the original string ids unchanged, with at least one id that does not parse |
| `Arguments.IntegerIdsLookUpIntegers` | fixture_magic/management/commands/dump_object.py:70-71 | ids written as decimal integers are looked up as exactly those integers |
| `Arguments.StringIdLooksUpStrings` | fixture_magic/management/commands/dump_object.py:70-74 | one id with a character that is neither a digit nor a leading sign sends the whole lookup to the string ids, unchanged |
| `Traversal.EnqueuedMembers` | fixture_magic/management/commands/dump_object.py:113-116 | one accessor enqueues exactly the records it delivers before any error that are not in `priors` |
| `Traversal.ExpansionMembers` | fixture_magic/management/commands/dump_object.py:106-116 | expanding a record enqueues exactly the records its accessors deliver that are not yet in `priors` |
| `Traversal.ExpansionAppend` | fixture_magic/management/commands/dump_object.py:110 | the accessors are expanded one after another, in accessor order |
| `Traversal.RaiseStopsOnlyItsAccessor` | fixture_magic/management/commands/dump_object.py:110-120 | a `FieldError` or `ObjectDoesNotExist` keeps the rows enqueued before it, skips the rest of its own accessor, and leaves the following accessors to be expanded as usual |
| `Traversal.RelName` | fixture_magic/management/commands/dump_object.py:93-94 | the lowered model name is as long as `app_label.module_name`, has the dot after the app label, holds both halves lowered character by character, and no upper-case letter |
| `Traversal.Admitted` | fixture_magic/management/commands/dump_object.py:95-100 | an admitted record is not in the exclude list; a record of the main model that is not excluded is always admitted; with an empty filter list a record is admitted exactly when it is not excluded; a record outside a non-empty filter list that is not of the main model is never admitted |
| `Traversal.Start` | fixture_magic/management/commands/dump_object.py:79-83 | the walk starts with the seeds queued in their order, `priors` empty and nothing serialized |
| `Traversal.StartKeepsBookkeeping` | fixture_magic/management/commands/dump_object.py:79-83 | the walk's bookkeeping holds at the start, and the queue holds only records of the database |
| `Traversal.Step` | fixture_magic/management/commands/dump_object.py:84-116 | one turn adds the head to `priors`, serializes the head or nothing, and keeps the records behind the head at the front of the queue in their order |
| `Traversal.StepProgress` | fixture_magic/management/commands/dump_object.py:84-90 | each turn stays inside the database and either adds a new record to `priors` or shortens the queue, so the loop terminates, cycles included |
| `Traversal.StepEffect` | fixture_magic/management/commands/dump_object.py:84-116 | the head always joins `priors` and the records behind it keep their order; a duplicate, excluded or filtered head adds nothing to the queue or the order; an admitted new head is appended to the order, and exactly its delivered records not in `priors` are added at the tail |
| `Traversal.Visit` | fixture_magic/management/commands/dump_object.py:84-121 | the walk ends with an empty queue; `priors` only grows and the serialization order only gets longer |
| `Traversal.VisitKeepsBookkeeping` | fixture_magic/management/commands/dump_object.py:84-116 | the walk keeps these facts true: the order has no duplicates and holds exactly the admitted records of `priors`; every seed, and every record delivered by a serialized record, is in `priors` or still queued |
| `Traversal.VisitFromSeeds` | fixture_magic/management/commands/dump_object.py:82-116 | from the seeds, the order has no duplicates and holds exactly the admitted records of the final `priors`; the final `priors` holds every seed and every record delivered by its admitted records |
| `Traversal.VisitIsLeast` | fixture_magic/management/commands/dump_object.py:82-116 | the final `priors` is inside every set that holds the seeds and is closed under expansion, so it is the least such set |
| `Traversal.FirstVisitsPrefix` | fixture_magic/management/commands/dump_object.py:116 | appending to the queue never changes what is served from the records already queued |
| `Traversal.StepServesQueueFirst` | fixture_magic/management/commands/dump_object.py:85-116 | one turn serves the head before anything behind it |
| `Traversal.VisitServesQueueFirst` | fixture_magic/management/commands/dump_object.py:83-116 | FIFO order: the serialization order begins with the queued records' first admitted occurrences, in queue order, before anything their expansion adds |
| `Traversal.SeedsComeFirst` | fixture_magic/management/commands/dump_object.py:83-103 | distinct seeds that pass the filters are serialized first, in seed order |
| `Traversal.UpperCaseEntryNeverMatches` | fixture_magic/management/commands/dump_object.py:93-100 | an exclude or filter entry with an upper-case letter never equals a lowered model name, so adding it to the exclude list changes nothing |
| `Traversal.EnqueueRows` | fixture_magic/management/commands/dump_object.py:112-120 | the inner loop appends exactly `Enqueued(rows, priors)` to the queue |
| `Traversal.EnqueueRelated` | fixture_magic/management/commands/dump_object.py:106-120 | the accessor loop appends exactly `Expansion(accessors, priors)` to the queue |
| `Traversal.Kitchensink` | fixture_magic/management/commands/dump_object.py:80-121 | the imperative loop computes `Visit`'s order from the seeds; the order has no duplicates and every record in it passes the exclude and filter tests |
| `Scenarios.CycleVisitedOnce` | fixture_magic/management/commands/dump_object.py:87-90 | two records that relate to each other are each serialized once, in order `[1, 2]` |
| `Scenarios.DiamondVisitedOnce` | fixture_magic/management/commands/dump_object.py:84-120 | on a diamond, record 4 is queued twice but serialized once; record 5, the row after a swallowed `ObjectDoesNotExist` in both accessors that reach it, is never reached, though the accessor without the error would queue it |
| `DumpObject.Reversed` | fixture_magic/management/commands/dump_object.py:127 | `reversed(s)` has the same length and holds `s`'s elements from last to first |
| `DumpObject.ReversedTwice` | fixture_magic/management/commands/dump_object.py:127 | reversing twice gives back the original sequence |
| `DumpObject.ReversedNoDuplicates` | fixture_magic/management/commands/dump_object.py:127 | reversal keeps the same records and adds no duplicate |
| `DumpObject.WalkFilters` | fixture_magic/management/commands/dump_object.py:78 | the walk's main model is the class argument lowered character by character, with no upper-case letter; both lists hold only well-formed entries, and an option left at its default `''` gives the empty list |
| `DumpObject.Handle` | fixture_magic/management/commands/dump_object.py:36-127 | gives the two usage errors as `ParseArgs` does, and fails exactly when the model is not found (the record lookup being taken not to raise); otherwise it hands over the seeds reversed without `--kitchensink`, and with it the reversed `Visit` order under the lowered main model and the parsed lists, without duplicates |

## Left out

- Django's ORM is not modelled; it is a parameter (`Database`, `World`). This covers `loading.get_model`, `objects.filter`, `objects.all`, `_meta.get_all_related_objects`, `get_accessor_name` and `__getattribute__`. The order in which the database returns records is whatever `records` says.
- An accessor can raise an exception other than the two that are caught, for example an `AttributeError` from calling `.all()` on a one-to-one accessor. That exception would escape `handle`. The model does not represent it: `Yield` only carries the two exceptions the walk catches.
- DumpObject.Handle: the record lookup `Database.records` is taken never to raise. In the source, the fallback `dump_me.objects.filter(pk__in=ids)` on line 74 runs inside the `except ValueError:` handler. String ids against an integer primary key make Django raise `ValueError` there, and that error escapes `handle`. The model does not represent this failure.
- The serializer is not modelled: the internals of `add_to_serialize_list`, the global `serialize_me` list, `serialize_fully`, `serialize('json', …)`, the `print` and the `--natural` option (lines 127-130). These live in `fixture_magic.utils` and Django. `fixture_magic.utils` is not part of this model. Only the reversed hand-off is modelled.
- The exact usage-message text (lines 37-38) is not modelled. The two `CommandError`s are tags of `UsageError`.
- The `AssertionError` branch (lines 50-51) cannot happen, because the assertion it handles is commented out.
- The optparse option declarations (lines 17-34) are not modelled. `Options` holds the parsed values.
- `Text.ParseInt` accepts exactly this grammar: optional surrounding ASCII white space, an optional sign, and one or more ASCII digits. Python 2's `int` has further platform-dependent leniencies, for example around white space after the sign, and these are not modelled.
- Python 2 byte strings are modelled as `string`, with ASCII white space and ASCII case. In Python 2 these depend on the C locale.
- Record identity is Dafny equality on `O`. This stands for Django's model `__eq__`/`__hash__` (same model, same primary key).
- `setup.py` is packaging metadata with no logic.
