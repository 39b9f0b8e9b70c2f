/**
 * The positional arguments of `dump_object` (dump_object.py, lines 41-51
 * and 69-76): `app_name.model_name` followed by zero or more primary keys.
 */
module Arguments {
  import opened Results
  import opened Text

  /** The two `CommandError`s that `handle` raises for bad arguments. */
  datatype UsageError =
    | NoObjectClass          // "No object_class or id arguments supplied."
    | BadObjectClassFormat   // "object_class must be provided in the following format: app_name.model_name"

  /** What the arguments name: the model as typed, its two halves, and the ids. */
  datatype Target = Target(mainModel: string, appLabel: string, modelName: string, ids: seq<string>)

  /**
   * `main_model = args[0]`, `(app_label, model_name) = main_model.split('.')`,
   * `ids = args[1:]`. The missing first argument is an `IndexError` and a
   * class that does not split into exactly two parts a `ValueError`; the
   * assertion that there is at least one id is commented out in the
   * source, so no ids is no error.
   */
  function ParseArgs(args: seq<string>): (r: Result<Target, UsageError>)
    ensures args == [] <==> r == Failure(NoObjectClass)
    ensures r == Failure(BadObjectClassFormat) <==> args != [] && Count(args[0], '.') != 1
    ensures r.Success? ==>
      && r.value.mainModel == args[0]
      && r.value.appLabel + "." + r.value.modelName == args[0]
      && '.' !in r.value.appLabel && '.' !in r.value.modelName
      && r.value.ids == args[1..]
  {
    if args == [] then Failure(NoObjectClass)
    else
      var parts := Split(args[0], '.');
      if |parts| != 2 then Failure(BadObjectClassFormat)
      else
        JoinSplit(args[0], '.');
        assert Join(parts, '.') == parts[0] + ['.'] + Join(parts[1..], '.');
        Success(Target(args[0], parts[0], parts[1], args[1..]))
  }

  /** How the model's records are looked up. */
  datatype Lookup =
    | AllRecords               // `dump_me.objects.all()`
    | IntKeys(ints: seq<int>)  // `filter(pk__in=[int(i) for i in ids])`
    | StrKeys(strs: seq<string>) // `filter(pk__in=ids)`

  /** `[int(i) for i in ids]`, which raises at the first id that is not an integer. */
  function ParseAll(ids: seq<string>): (r: Option<seq<int>>)
    ensures r.Some? <==> forall k :: 0 <= k < |ids| ==> ParseInt(ids[k]).Some?
    ensures r.Some? ==> |r.value| == |ids| && forall k :: 0 <= k < |ids| ==> ParseInt(ids[k]) == Some(r.value[k])
  {
    if ids == [] then Some([])
    else match ParseInt(ids[0])
      case None => None
      case Some(n) =>
        match ParseAll(ids[1..])
        case None => None
        case Some(ns) => Some([n] + ns)
  }

  /**
   * The lookup for the given ids: all records when there are none; else the
   * integer keys when every id is an integer; else the ids themselves.
   */
  function SelectLookup(ids: seq<string>): (l: Lookup)
    ensures l == AllRecords <==> ids == []
    ensures ids != [] ==> (l.IntKeys? <==> forall k :: 0 <= k < |ids| ==> ParseInt(ids[k]).Some?)
    ensures l.IntKeys? ==> |l.ints| == |ids| && forall k :: 0 <= k < |ids| ==> ParseInt(ids[k]) == Some(l.ints[k])
    ensures l.StrKeys? ==> l.strs == ids && exists k :: 0 <= k < |ids| && ParseInt(ids[k]).None?
  {
    if ids == [] then AllRecords
    else match ParseAll(ids)
      case Some(ns) => IntKeys(ns)
      case None => StrKeys(ids)
  }

  /** Ids written as integers are looked up as those integers. */
  lemma {:induction false} IntegerIdsLookUpIntegers(ns: seq<int>)
    requires ns != []
    ensures SelectLookup(seq(|ns|, k requires 0 <= k < |ns| => ShowInt(ns[k]))) == IntKeys(ns)
  {
    var ids := seq(|ns|, k requires 0 <= k < |ns| => ShowInt(ns[k]));
    forall k | 0 <= k < |ids| ensures ParseInt(ids[k]) == Some(ns[k]) {
      ParseShowInt(ns[k]);
    }
    var l := SelectLookup(ids);
    assert l.IntKeys?;
    assert l.ints == ns;
  }

  /**
   * One id with a character that is neither a digit nor a leading sign is
   * enough for the ids to be looked up as strings, unchanged.
   */
  lemma StringIdLooksUpStrings(ids: seq<string>, i: nat, k: nat)
    requires i < |ids| && k < |Strip(ids[i])| && !IsDigit(Strip(ids[i])[k])
    requires k > 0 || (Strip(ids[i])[0] != '-' && Strip(ids[i])[0] != '+')
    ensures SelectLookup(ids) == StrKeys(ids)
  {
    ParseIntRejects(ids[i], k);
  }
}
