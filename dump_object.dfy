/**
 * `Command.handle` of the `dump_object` management command
 * (dump_object.py, lines 36-127): check the arguments, parse the two list
 * options, look the seed records up, walk their relations when
 * `--kitchensink` is given, and hand the serialization order, reversed, to
 * the serialize list.
 */
module DumpObject {
  import opened Results
  import opened Text
  import opened OptionLists
  import opened Arguments
  import opened Traversal

  /** The options `handle` reads; `--natural` only matters to the serializer. */
  datatype Options = Options(kitchensink: bool, excludeList: string, filterList: string)

  /**
   * How `handle` fails: one of its two `CommandError`s, or the
   * `AttributeError` of `None.objects` when `loading.get_model` finds no
   * such model.
   */
  datatype HandleError = Usage(error: UsageError) | ModelNotFound

  /**
   * The database as `handle` sees it: which models exist, the records a
   * lookup on a model returns (in the database's order), and the record
   * graph the walk follows.
   */
  datatype Database<!O> = Database(
    hasModel: (string, string) -> bool,
    records: (string, string, Lookup) -> seq<O>,
    world: World<O>)

  /** Every record a lookup returns is a record of the (closed) database. */
  ghost predicate Consistent<O>(db: Database<O>) {
    && Closed(db.world)
    && forall app, model, l, x :: x in db.records(app, model, l) ==> x in db.world.universe
  }

  /** `reversed(s)`. */
  function Reversed<T>(s: seq<T>): (r: seq<T>)
    ensures |r| == |s|
    ensures forall i :: 0 <= i < |s| ==> r[i] == s[|s| - 1 - i]
  {
    if s == [] then [] else Reversed(s[1..]) + [s[0]]
  }

  /** Reversing twice gives back the original sequence. */
  lemma ReversedTwice<T>(s: seq<T>)
    ensures Reversed(Reversed(s)) == s
  {
  }

  /** Reversal neither loses nor duplicates a record. */
  lemma ReversedNoDuplicates<T>(s: seq<T>)
    requires NoDuplicates(s)
    ensures NoDuplicates(Reversed(s))
    ensures forall x :: x in Reversed(s) <==> x in s
  {
    var r := Reversed(s);
    forall x | x in s ensures x in r {
      var i :| 0 <= i < |s| && s[i] == x;
      assert r[|s| - 1 - i] == x;
    }
  }

  /** The filters of the walk: `main_model.lower()` and the two parsed lists. */
  function WalkFilters(t: Target, options: Options): (f: Filters)
    ensures |f.mainModel| == |t.mainModel| && !HasUpper(f.mainModel)
    ensures forall i :: 0 <= i < |t.mainModel| ==> f.mainModel[i] == LowerChar(t.mainModel[i])
    ensures forall e :: e in f.excludeList ==> IsEntry(e)
    ensures forall e :: e in f.filterList ==> IsEntry(e)
    ensures options.excludeList == "" ==> f.excludeList == []
    ensures options.filterList == "" ==> f.filterList == []
  {
    LowerHasNoUpper(t.mainModel);
    ParseListOfDefault();
    Filters(Lower(t.mainModel), ParseList(options.excludeList), ParseList(options.filterList))
  }

  /** The records `handle` hands to `add_to_serialize_list`, or its error. */
  method Handle<O(==)>(args: seq<string>, options: Options, db: Database<O>) returns (r: Result<seq<O>, HandleError>)
    requires Consistent(db)
    ensures args == [] ==> r == Failure(Usage(NoObjectClass))
    ensures args != [] && Count(args[0], '.') != 1 ==> r == Failure(Usage(BadObjectClassFormat))
    ensures ParseArgs(args).Success? ==>
      var t := ParseArgs(args).value;
      && (r == Failure(ModelNotFound) <==> !db.hasModel(t.appLabel, t.modelName))
      && (db.hasModel(t.appLabel, t.modelName) ==>
            var seeds := db.records(t.appLabel, t.modelName, SelectLookup(t.ids));
            && r.Success?
            && (!options.kitchensink ==> r.value == Reversed(seeds))
            && (options.kitchensink ==>
                  r.value == Reversed(Visit(db.world, WalkFilters(t, options), Start(seeds)).order)))
    ensures r.Success? && options.kitchensink ==> NoDuplicates(r.value)
  {
    var parsed := ParseArgs(args);
    if parsed.Failure? {
      return Failure(Usage(parsed.error));
    }
    var t := parsed.value;
    var filters := WalkFilters(t, options);
    if !db.hasModel(t.appLabel, t.modelName) {
      return Failure(ModelNotFound);
    }
    var objs := db.records(t.appLabel, t.modelName, SelectLookup(t.ids));
    var serializationOrder;
    if options.kitchensink {
      serializationOrder := Kitchensink(db.world, filters, objs);
      ReversedNoDuplicates(serializationOrder);
    } else {
      serializationOrder := objs;
    }
    r := Success(Reversed(serializationOrder));
  }
}
