/**
 * The "kitchensink" walk of `dump_object` (dump_object.py, lines 80-124):
 * a first-in first-out walk from the seed records through their related
 * records, with a `priors` set against cycles and duplicates and two name
 * filters deciding which records are kept and expanded.
 *
 * Records are values of a type `O` whose equality is Django's model
 * equality (same model, same primary key). The database is finite: every
 * record lies in `universe`, and every record reachable from one lies in
 * it too.
 */
module Traversal {
  import opened Text

  /** The two exceptions the walk catches around one related accessor. */
  datatype RelationError = FieldError | ObjectDoesNotExist

  /**
   * One step of evaluating `obj.<accessor>.all()` and iterating it: either
   * the next related record or an exception, after which the accessor
   * yields nothing more.
   */
  datatype Yield<O> = Row(obj: O) | Raise(error: RelationError)

  /**
   * What the walk learns about records: `app_label` and `module_name` of
   * each record's model, and for each record its related-object accessors
   * (`_meta.get_all_related_objects()`, in that order) as they iterate.
   */
  datatype World<!O> = World(
    universe: set<O>,
    appLabel: O -> string,
    moduleName: O -> string,
    related: O -> seq<seq<Yield<O>>>)

  /** The rows an accessor delivers before it raises, if it does. */
  function Delivered<O>(rows: seq<Yield<O>>): seq<O> {
    if rows == [] then []
    else match rows[0]
      case Raise(_) => []
      case Row(o) => [o] + Delivered(rows[1..])
  }

  /** The rows all accessors deliver, accessor after accessor. */
  function AllDelivered<O>(accessors: seq<seq<Yield<O>>>): seq<O> {
    if accessors == [] then [] else Delivered(accessors[0]) + AllDelivered(accessors[1..])
  }

  /** The database is closed: what a record delivers is in the database. */
  ghost predicate Closed<O>(w: World<O>) {
    forall x, y :: x in w.universe && y in AllDelivered(w.related(x)) ==> y in w.universe
  }

  /** `main_model.lower()` and the two parsed option lists. */
  datatype Filters = Filters(mainModel: string, excludeList: seq<string>, filterList: seq<string>)

  /** `(obj._meta.app_label + '.' + obj._meta.module_name).lower()`. */
  function RelName<O>(w: World<O>, x: O): (name: string)
    ensures |name| == |w.appLabel(x)| + 1 + |w.moduleName(x)|
    ensures forall i :: 0 <= i < |w.appLabel(x)| ==> name[i] == LowerChar(w.appLabel(x)[i])
    ensures name[|w.appLabel(x)|] == '.'
    ensures forall i :: 0 <= i < |w.moduleName(x)| ==>
      name[|w.appLabel(x)| + 1 + i] == LowerChar(w.moduleName(x)[i])
    ensures !HasUpper(name)
  {
    var full := w.appLabel(x) + "." + w.moduleName(x);
    assert forall i :: 0 <= i < |w.moduleName(x)| ==> full[|w.appLabel(x)| + 1 + i] == w.moduleName(x)[i];
    Lower(full)
  }

  /** A record that neither the exclude list skips nor the filter list skips. */
  predicate Admitted<O>(w: World<O>, f: Filters, x: O): (ok: bool)
    ensures ok ==> RelName(w, x) !in f.excludeList
    ensures RelName(w, x) !in f.excludeList && RelName(w, x) == f.mainModel ==> ok
    ensures f.filterList == [] ==> (ok <==> RelName(w, x) !in f.excludeList)
    ensures RelName(w, x) != f.mainModel && f.filterList != [] && RelName(w, x) !in f.filterList ==> !ok
  {
    var name := RelName(w, x);
    name !in f.excludeList && (name == f.mainModel || f.filterList == [] || name in f.filterList)
  }

  /** What iterating one accessor appends to the queue. */
  function Enqueued<O(==)>(rows: seq<Yield<O>>, priors: set<O>): seq<O> {
    if rows == [] then []
    else match rows[0]
      case Raise(_) => []
      case Row(o) => (if o in priors then [] else [o]) + Enqueued(rows[1..], priors)
  }

  /** What iterating all accessors of one record appends to the queue. */
  function Expansion<O(==)>(accessors: seq<seq<Yield<O>>>, priors: set<O>): seq<O> {
    if accessors == [] then [] else Enqueued(accessors[0], priors) + Expansion(accessors[1..], priors)
  }

  lemma {:induction false} EnqueuedMembers<O>(rows: seq<Yield<O>>, priors: set<O>, x: O)
    ensures x in Enqueued(rows, priors) <==> x in Delivered(rows) && x !in priors
  {
    if rows != [] && rows[0].Row? {
      EnqueuedMembers(rows[1..], priors, x);
    }
  }

  /**
   * An expansion enqueues exactly the delivered records that are not yet in
   * `priors`.
   */
  lemma {:induction false} ExpansionMembers<O>(accessors: seq<seq<Yield<O>>>, priors: set<O>, x: O)
    ensures x in Expansion(accessors, priors) <==> x in AllDelivered(accessors) && x !in priors
  {
    if accessors != [] {
      EnqueuedMembers(accessors[0], priors, x);
      ExpansionMembers(accessors[1..], priors, x);
    }
  }

  lemma {:induction false} ExpansionAppend<O>(a: seq<seq<Yield<O>>>, b: seq<seq<Yield<O>>>, priors: set<O>)
    ensures Expansion(a + b, priors) == Expansion(a, priors) + Expansion(b, priors)
  {
    if a == [] {
      assert a + b == b;
    } else {
      assert (a + b)[0] == a[0] && (a + b)[1..] == a[1..] + b;
      ExpansionAppend(a[1..], b, priors);
    }
  }

  lemma {:induction false} EnqueuedUpToRaise<O>(pre: seq<Yield<O>>, e: RelationError, post: seq<Yield<O>>, priors: set<O>)
    ensures Enqueued(pre + [Raise(e)] + post, priors) == Enqueued(pre, priors)
  {
    if pre == [] {
      assert (pre + [Raise(e)] + post)[0] == Raise(e);
    } else {
      var rows := pre + [Raise(e)] + post;
      assert rows[0] == pre[0] && rows[1..] == pre[1..] + [Raise(e)] + post;
      EnqueuedUpToRaise(pre[1..], e, post, priors);
    }
  }

  /**
   * A relation error stops only its own accessor: the rows it delivered
   * before the error stay enqueued, the rest of that accessor is not read,
   * and the following accessors are expanded as usual.
   */
  lemma RaiseStopsOnlyItsAccessor<O>(
    before: seq<seq<Yield<O>>>, pre: seq<Yield<O>>, e: RelationError, post: seq<Yield<O>>,
    after: seq<seq<Yield<O>>>, priors: set<O>)
    ensures Expansion(before + [pre + [Raise(e)] + post] + after, priors)
         == Expansion(before, priors) + Enqueued(pre, priors) + Expansion(after, priors)
  {
    var acc := pre + [Raise(e)] + post;
    ExpansionAppend(before + [acc], after, priors);
    ExpansionAppend(before, [acc], priors);
    EnqueuedUpToRaise(pre, e, post, priors);
    assert Expansion([acc], priors) == Enqueued(acc, priors) + Expansion([], priors);
  }

  /** The walk's three variables: `queue`, `priors` and `serialization_order`. */
  datatype State<O> = State(queue: seq<O>, priors: set<O>, order: seq<O>)

  /** `priors = set()`, `queue = list(objs)`, `serialization_order = []`. */
  function Start<O>(seeds: seq<O>): (s: State<O>)
    ensures s.queue == seeds && s.priors == {} && s.order == []
  {
    State(seeds, {}, [])
  }

  /**
   * The walk starts with its bookkeeping true: nothing serialized yet,
   * every seed queued, and only records of the database queued.
   */
  lemma StartKeepsBookkeeping<O>(w: World<O>, f: Filters, seeds: seq<O>)
    requires forall x :: x in seeds ==> x in w.universe
    ensures Bookkeeping(w, f, seeds, Start(seeds)) && InUniverse(w, Start(seeds))
  {
  }

  ghost predicate InUniverse<O>(w: World<O>, s: State<O>) {
    (forall x :: x in s.queue ==> x in w.universe) && s.priors <= w.universe
  }

  /** One turn of `while queue:`. */
  function Step<O(==)>(w: World<O>, f: Filters, s: State<O>): (t: State<O>)
    requires s.queue != []
    ensures t.priors == s.priors + {s.queue[0]}
    ensures t.order == s.order || t.order == s.order + [s.queue[0]]
    ensures |t.queue| >= |s.queue| - 1 && t.queue[..|s.queue| - 1] == s.queue[1..]
  {
    var obj := s.queue[0];
    var rest := s.queue[1..];
    if obj in s.priors then State(rest, s.priors, s.order)
    else
      var priors := s.priors + {obj};
      if !Admitted(w, f, obj) then State(rest, priors, s.order)
      else State(rest + Expansion(w.related(obj), priors), priors, s.order + [obj])
  }

  /**
   * A turn stays inside the database and makes progress: either `priors`
   * gains a record of the database or the queue gets shorter.
   */
  lemma StepProgress<O>(w: World<O>, f: Filters, s: State<O>)
    requires Closed(w) && InUniverse(w, s) && s.queue != []
    ensures InUniverse(w, Step(w, f, s))
    ensures var t := Step(w, f, s);
      || (t.priors == s.priors && |t.queue| < |s.queue|)
      || |w.universe - t.priors| < |w.universe - s.priors|
  {
    var obj := s.queue[0];
    var t := Step(w, f, s);
    if obj !in s.priors {
      var p := s.priors + {obj};
      assert w.universe - s.priors == (w.universe - p) + {obj};
      forall x | x in t.queue ensures x in w.universe {
        if x !in s.queue[1..] {
          ExpansionMembers(w.related(obj), p, x);
        }
      }
    }
  }

  /**
   * What one turn does to the queue: the records behind the head move up in
   * their order, and what is added behind them is exactly the records the
   * head delivers that are not in `priors`, and only if the head is new and
   * admitted. A duplicate, excluded or filtered head adds nothing and is not
   * serialized; either way the head joins `priors`.
   */
  lemma StepEffect<O>(w: World<O>, f: Filters, s: State<O>)
    requires s.queue != []
    ensures var obj, t := s.queue[0], Step(w, f, s);
      && t.priors == s.priors + {obj}
      && |s.queue| - 1 <= |t.queue| && t.queue[..|s.queue| - 1] == s.queue[1..]
      && (obj in s.priors || !Admitted(w, f, obj) ==> t.queue == s.queue[1..] && t.order == s.order)
      && (obj !in s.priors && Admitted(w, f, obj) ==>
            && t.order == s.order + [obj]
            && (forall y :: y in t.queue[|s.queue| - 1..] <==> y in AllDelivered(w.related(obj)) && y !in t.priors))
  {
    var obj, t := s.queue[0], Step(w, f, s);
    if obj !in s.priors && Admitted(w, f, obj) {
      var added := Expansion(w.related(obj), t.priors);
      assert t.queue[|s.queue| - 1..] == added;
      forall y ensures y in added <==> y in AllDelivered(w.related(obj)) && y !in t.priors {
        ExpansionMembers(w.related(obj), t.priors, y);
      }
    }
  }

  /** The walk run until the queue is empty. */
  function Visit<O(==)>(w: World<O>, f: Filters, s: State<O>): (final: State<O>)
    requires Closed(w) && InUniverse(w, s)
    ensures final.queue == []
    ensures s.priors <= final.priors && s.order <= final.order
    decreases |w.universe - s.priors|, |s.queue|
  {
    if s.queue == [] then s
    else
      StepProgress(w, f, s);
      Visit(w, f, Step(w, f, s))
  }

  predicate NoDuplicates<T(==)>(s: seq<T>) {
    forall i, j :: 0 <= i < j < |s| ==> s[i] != s[j]
  }

  /**
   * The bookkeeping the walk keeps true: the order is duplicate-free and
   * holds exactly the admitted records of `priors`; every seed, and every
   * record delivered by an expanded record, is in `priors` or still queued.
   */
  ghost predicate Bookkeeping<O>(w: World<O>, f: Filters, seeds: seq<O>, s: State<O>) {
    && NoDuplicates(s.order)
    && (forall x :: x in s.order ==> x in s.priors && Admitted(w, f, x))
    && (forall x :: x in s.priors && Admitted(w, f, x) ==> x in s.order)
    && (forall x :: x in seeds ==> x in s.priors || x in s.queue)
    && (forall x, y :: x in s.order && y in AllDelivered(w.related(x)) ==> y in s.priors || y in s.queue)
  }

  lemma StepKeepsBookkeeping<O>(w: World<O>, f: Filters, seeds: seq<O>, s: State<O>)
    requires s.queue != [] && Bookkeeping(w, f, seeds, s)
    ensures Bookkeeping(w, f, seeds, Step(w, f, s))
  {
    var obj := s.queue[0];
    var t := Step(w, f, s);
    assert forall x :: x in s.queue ==> x == obj || x in s.queue[1..];
    if obj !in s.priors && Admitted(w, f, obj) {
      forall y | y in AllDelivered(w.related(obj)) ensures y in t.priors || y in t.queue {
        ExpansionMembers(w.related(obj), t.priors, y);
      }
    }
  }

  lemma {:induction false} VisitKeepsBookkeeping<O>(w: World<O>, f: Filters, seeds: seq<O>, s: State<O>)
    requires Closed(w) && InUniverse(w, s) && Bookkeeping(w, f, seeds, s)
    ensures Bookkeeping(w, f, seeds, Visit(w, f, s))
    decreases |w.universe - s.priors|, |s.queue|
  {
    if s.queue != [] {
      StepProgress(w, f, s);
      StepKeepsBookkeeping(w, f, seeds, s);
      VisitKeepsBookkeeping(w, f, seeds, Step(w, f, s));
    }
  }

  /** A set that holds everything the admitted records among it deliver. */
  ghost predicate ClosedUnderExpansion<O>(w: World<O>, f: Filters, c: set<O>) {
    forall x, y :: x in c && Admitted(w, f, x) && y in AllDelivered(w.related(x)) ==> y in c
  }

  /**
   * What the walk visits from the seeds: the final `priors` holds every seed
   * and is closed under expanding its admitted records (nothing reachable
   * is missed); the serialization order holds exactly the admitted records
   * of `priors`, each once and each passing both filters.
   */
  lemma VisitFromSeeds<O>(w: World<O>, f: Filters, seeds: seq<O>)
    requires Closed(w) && forall x :: x in seeds ==> x in w.universe
    ensures var final := Visit(w, f, Start(seeds));
      && NoDuplicates(final.order)
      && (forall x :: x in final.order ==> x in final.priors && Admitted(w, f, x))
      && (forall x :: x in final.priors && Admitted(w, f, x) ==> x in final.order)
      && (forall x :: x in seeds ==> x in final.priors)
      && ClosedUnderExpansion(w, f, final.priors)
  {
    StartKeepsBookkeeping(w, f, seeds);
    VisitKeepsBookkeeping(w, f, seeds, Start(seeds));
  }

  lemma {:induction false} VisitStaysWithin<O>(w: World<O>, f: Filters, s: State<O>, c: set<O>)
    requires Closed(w) && InUniverse(w, s) && ClosedUnderExpansion(w, f, c)
    requires (forall x :: x in s.queue ==> x in c) && s.priors <= c
    ensures Visit(w, f, s).priors <= c
    decreases |w.universe - s.priors|, |s.queue|
  {
    if s.queue != [] {
      StepProgress(w, f, s);
      var obj := s.queue[0];
      var t := Step(w, f, s);
      forall x | x in t.queue ensures x in c {
        if x !in s.queue[1..] {
          ExpansionMembers(w.related(obj), t.priors, x);
        }
      }
      VisitStaysWithin(w, f, t, c);
    }
  }

  /**
   * Nothing beyond reach is visited: the final `priors` is contained in
   * every set that holds the seeds and is closed under expansion, so with
   * VisitFromSeeds it is the least such set.
   */
  lemma VisitIsLeast<O>(w: World<O>, f: Filters, seeds: seq<O>, c: set<O>)
    requires Closed(w) && forall x :: x in seeds ==> x in w.universe
    requires (forall x :: x in seeds ==> x in c) && ClosedUnderExpansion(w, f, c)
    ensures Visit(w, f, Start(seeds)).priors <= c
  {
    VisitStaysWithin(w, f, Start(seeds), c);
  }

  /**
   * The records of queue `q` that the walk will serialize from it, in order:
   * the first occurrence of each record not in `priors`, if admitted.
   */
  function FirstVisits<O(==)>(w: World<O>, f: Filters, q: seq<O>, priors: set<O>): seq<O> {
    if q == [] then []
    else if q[0] in priors then FirstVisits(w, f, q[1..], priors)
    else (if Admitted(w, f, q[0]) then [q[0]] else []) + FirstVisits(w, f, q[1..], priors + {q[0]})
  }

  lemma {:induction false} FirstVisitsPrefix<O>(w: World<O>, f: Filters, a: seq<O>, b: seq<O>, priors: set<O>)
    ensures FirstVisits(w, f, a, priors) <= FirstVisits(w, f, a + b, priors)
  {
    if a != [] {
      assert (a + b)[0] == a[0] && (a + b)[1..] == a[1..] + b;
      if a[0] in priors {
        FirstVisitsPrefix(w, f, a[1..], b, priors);
      } else {
        FirstVisitsPrefix(w, f, a[1..], b, priors + {a[0]});
      }
    }
  }

  lemma PrefixTransitive<T>(a: seq<T>, b: seq<T>, c: seq<T>)
    requires a <= b && b <= c
    ensures a <= c
  {
    assert c[..|a|] == b[..|a|];
  }

  lemma PrefixExtend<T>(p: seq<T>, a: seq<T>, b: seq<T>)
    requires a <= b
    ensures p + a <= p + b
  {
    assert (p + b)[..|p + a|] == p + b[..|a|];
  }

  /** One turn serves the head of the queue before everything behind it. */
  lemma StepServesQueueFirst<O>(w: World<O>, f: Filters, s: State<O>)
    requires s.queue != []
    ensures var t := Step(w, f, s);
      s.order + FirstVisits(w, f, s.queue, s.priors) <= t.order + FirstVisits(w, f, t.queue, t.priors)
  {
    var obj := s.queue[0];
    var t := Step(w, f, s);
    var rest := s.queue[1..];
    if obj !in s.priors && Admitted(w, f, obj) {
      var added := Expansion(w.related(obj), t.priors);
      FirstVisitsPrefix(w, f, rest, added, t.priors);
      PrefixExtend(t.order, FirstVisits(w, f, rest, t.priors), FirstVisits(w, f, t.queue, t.priors));
      assert s.order + FirstVisits(w, f, s.queue, s.priors) == t.order + FirstVisits(w, f, rest, t.priors);
    }
  }

  /**
   * First in, first out: whatever is queued is serialized before anything
   * that expanding it enqueues, in queue order.
   */
  lemma {:induction false} VisitServesQueueFirst<O>(w: World<O>, f: Filters, s: State<O>)
    requires Closed(w) && InUniverse(w, s)
    ensures s.order + FirstVisits(w, f, s.queue, s.priors) <= Visit(w, f, s).order
    decreases |w.universe - s.priors|, |s.queue|
  {
    if s.queue == [] {
      assert s.order + FirstVisits(w, f, s.queue, s.priors) == s.order;
    } else {
      StepProgress(w, f, s);
      var t := Step(w, f, s);
      VisitServesQueueFirst(w, f, t);
      StepServesQueueFirst(w, f, s);
      PrefixTransitive(s.order + FirstVisits(w, f, s.queue, s.priors),
                       t.order + FirstVisits(w, f, t.queue, t.priors),
                       Visit(w, f, t).order);
    }
  }

  lemma {:induction false} FirstVisitsOfFresh<O>(w: World<O>, f: Filters, q: seq<O>, priors: set<O>)
    requires NoDuplicates(q) && forall x :: x in q ==> x !in priors && Admitted(w, f, x)
    ensures FirstVisits(w, f, q, priors) == q
  {
    if q != [] {
      assert q[0] in q;
      assert forall x :: x in q[1..] ==> x != q[0] && x in q;
      FirstVisitsOfFresh(w, f, q[1..], priors + {q[0]});
      assert q == [q[0]] + q[1..];
    }
  }

  /** Distinct seeds that pass the filters are serialized first, in seed order. */
  lemma SeedsComeFirst<O>(w: World<O>, f: Filters, seeds: seq<O>)
    requires Closed(w) && forall x :: x in seeds ==> x in w.universe
    requires NoDuplicates(seeds) && forall x :: x in seeds ==> Admitted(w, f, x)
    ensures seeds <= Visit(w, f, Start(seeds)).order
  {
    FirstVisitsOfFresh(w, f, seeds, {});
    VisitServesQueueFirst(w, f, Start(seeds));
  }

  /**
   * The exclude and filter entries are not lower-cased but the name they are
   * compared with is, so an entry with an upper-case letter never matches:
   * adding it to the exclude list excludes nothing.
   */
  lemma UpperCaseEntryNeverMatches<O>(w: World<O>, f: Filters, x: O, e: string)
    requires HasUpper(e)
    ensures RelName(w, x) != e
    ensures Admitted(w, Filters(f.mainModel, f.excludeList + [e], f.filterList), x) == Admitted(w, f, x)
  {
    LowerHasNoUpper(w.appLabel(x) + "." + w.moduleName(x));
  }

  /**
   * `for rel_obj in <accessor>.all(): if rel_obj not in priors:
   * queue.append(rel_obj)`, inside `try`: a `FieldError` or
   * `ObjectDoesNotExist` is caught and ends this accessor only.
   */
  method EnqueueRows<O(==)>(queue: seq<O>, priors: set<O>, rows: seq<Yield<O>>) returns (q: seq<O>)
    ensures q == queue + Enqueued(rows, priors)
  {
    q := queue;
    var j := 0;
    while j < |rows|
      invariant j <= |rows|
      invariant q + Enqueued(rows[j..], priors) == queue + Enqueued(rows, priors)
    {
      assert rows[j..][0] == rows[j] && rows[j..][1..] == rows[j + 1..];
      if rows[j].Raise? {
        // caught: the accessor's remaining rows are never read
        break;
      }
      var relObj := rows[j].obj;
      if relObj !in priors {
        q := q + [relObj];
      }
      j := j + 1;
    }
  }

  /** `for rel in related_fields:` over the accessors of one record. */
  method EnqueueRelated<O(==)>(queue: seq<O>, priors: set<O>, accessors: seq<seq<Yield<O>>>) returns (q: seq<O>)
    ensures q == queue + Expansion(accessors, priors)
  {
    q := queue;
    for i := 0 to |accessors|
      invariant q + Expansion(accessors[i..], priors) == queue + Expansion(accessors, priors)
    {
      assert accessors[i..][0] == accessors[i] && accessors[i..][1..] == accessors[i + 1..];
      q := EnqueueRows(q, priors, accessors[i]);
    }
  }

  /**
   * The kitchensink loop itself, with the nested `for` loops over the
   * accessors and their rows.
   */
  method Kitchensink<O(==)>(w: World<O>, f: Filters, seeds: seq<O>) returns (serializationOrder: seq<O>)
    requires Closed(w) && forall x :: x in seeds ==> x in w.universe
    ensures serializationOrder == Visit(w, f, Start(seeds)).order
    ensures NoDuplicates(serializationOrder)
    ensures forall x :: x in serializationOrder ==> Admitted(w, f, x)
  {
    var priors: set<O> := {};
    var queue := seeds;
    serializationOrder := [];
    while queue != []
      invariant InUniverse(w, State(queue, priors, serializationOrder))
      invariant Visit(w, f, State(queue, priors, serializationOrder)) == Visit(w, f, Start(seeds))
      decreases |w.universe - priors|, |queue|
    {
      ghost var before := State(queue, priors, serializationOrder);
      StepProgress(w, f, before);
      var obj := queue[0];
      queue := queue[1..];
      if obj in priors {
        continue;
      }
      priors := priors + {obj};
      var relName := RelName(w, obj);
      if relName in f.excludeList {
        continue;
      }
      if relName != f.mainModel && f.filterList != [] && relName !in f.filterList {
        continue;
      }
      serializationOrder := serializationOrder + [obj];
      queue := EnqueueRelated(queue, priors, w.related(obj));
      assert queue == Step(w, f, before).queue;
    }
    VisitFromSeeds(w, f, seeds);
  }
}
