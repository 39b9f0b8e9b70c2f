/**
 * The `--exclude_list` and `--filter_list` options (dump_object.py, lines
 * 53-63): every space becomes a comma, the value is split on commas, each
 * piece is stripped and the pieces that strip to nothing are dropped.
 */
module OptionLists {
  import opened Text

  /** A non-empty string with no white space at either end. */
  predicate Trimmed(t: string) {
    t != [] && !IsSpace(t[0]) && !IsSpace(t[|t| - 1])
  }

  /** A list entry as parsing leaves it: non-empty, no space, no comma, stripped. */
  predicate IsEntry(t: string) {
    Trimmed(t) && ' ' !in t && ',' !in t
  }

  /** `[y for x in xs for y in f(x)]`. */
  function FlatMap<A, B>(f: A -> seq<B>, xs: seq<A>): seq<B> {
    if xs == [] then [] else f(xs[0]) + FlatMap(f, xs[1..])
  }

  lemma {:induction false} FlatMapAppend<A, B>(f: A -> seq<B>, a: seq<A>, b: seq<A>)
    ensures FlatMap(f, a + b) == FlatMap(f, a) + FlatMap(f, b)
  {
    if a == [] {
      assert a + b == b;
    } else {
      assert (a + b)[0] == a[0] && (a + b)[1..] == a[1..] + b;
      FlatMapAppend(f, a[1..], b);
    }
  }

  /** What the comprehension keeps of one piece: its strip, unless that is empty. */
  function Kept(piece: string): (r: seq<string>)
    ensures |r| <= 1
    ensures forall k :: 0 <= k < |r| ==> Trimmed(r[k])
  {
    var t := Strip(piece);
    if t != [] then [t] else []
  }

  /** What holds of everything each element maps to holds of the whole flat map. */
  lemma {:induction false} FlatMapAll<A, B>(f: A -> seq<B>, xs: seq<A>, P: B -> bool)
    requires forall i, k :: 0 <= i < |xs| && 0 <= k < |f(xs[i])| ==> P(f(xs[i])[k])
    ensures forall k :: 0 <= k < |FlatMap(f, xs)| ==> P(FlatMap(f, xs)[k])
  {
    if xs != [] {
      FlatMapAll(f, xs[1..], P);
      var head, tail := f(xs[0]), FlatMap(f, xs[1..]);
      forall k | 0 <= k < |head + tail| ensures P((head + tail)[k]) {
        if k < |head| {
          assert (head + tail)[k] == f(xs[0])[k];
        } else {
          assert (head + tail)[k] == tail[k - |head|];
        }
      }
    }
  }

  lemma {:induction false} FlatMapShorter<A, B>(f: A -> seq<B>, xs: seq<A>)
    requires forall i :: 0 <= i < |xs| ==> |f(xs[i])| <= 1
    ensures |FlatMap(f, xs)| <= |xs|
  {
    if xs != [] {
      FlatMapShorter(f, xs[1..]);
    }
  }

  /** `[p.strip() for p in pieces if p.strip()]`. */
  function Entries(pieces: seq<string>): (r: seq<string>)
    ensures |r| <= |pieces|
    ensures forall k :: 0 <= k < |r| ==> Trimmed(r[k])
  {
    FlatMapShorter(Kept, pieces);
    FlatMapAll(Kept, pieces, Trimmed);
    FlatMap(Kept, pieces)
  }

  lemma EntriesAppend(a: seq<string>, b: seq<string>)
    ensures Entries(a + b) == Entries(a) + Entries(b)
  {
    FlatMapAppend(Kept, a, b);
  }

  /** Every piece of `pieces` is free of `c`, and so is every entry. */
  lemma EntriesAvoid(pieces: seq<string>, c: char)
    requires forall k :: 0 <= k < |pieces| ==> c !in pieces[k]
    ensures forall k :: 0 <= k < |Entries(pieces)| ==> c !in Entries(pieces)[k]
  {
    forall i, k | 0 <= i < |pieces| && 0 <= k < |Kept(pieces[i])| ensures c !in Kept(pieces[i])[k] {
      var p := pieces[i];
      var t := Strip(p);
      forall m | 0 <= m < |t| ensures t[m] != c {
        assert t[m] == p[Lead(p) + m];
      }
    }
    FlatMapAll(Kept, pieces, t => c !in t);
  }

  /** The token list an option value parses to. */
  function ParseList(value: string): (entries: seq<string>)
    ensures forall k :: 0 <= k < |entries| ==> IsEntry(entries[k])
  {
    var replaced := Replace(value, ' ', ',');
    var pieces := Split(replaced, ',');
    SplitPiecesAvoid(replaced, ',', ' ');
    EntriesAvoid(pieces, ',');
    EntriesAvoid(pieces, ' ');
    Entries(pieces)
  }

  /** The option's default, the empty string, gives the empty list. */
  lemma ParseListOfDefault()
    ensures ParseList("") == []
  {
    assert Split(Replace("", ' ', ','), ',') == [""];
  }

  lemma {:induction false} ReplaceAppend(x: string, y: string)
    ensures Replace(x + y, ' ', ',') == Replace(x, ' ', ',') + Replace(y, ' ', ',')
  {
    if x == [] {
      assert x + y == y;
    } else {
      assert (x + y)[0] == x[0] && (x + y)[1..] == x[1..] + y;
      ReplaceAppend(x[1..], y);
    }
  }

  lemma ReplaceAround(a: string, sep: char, b: string)
    requires sep == ',' || sep == ' '
    ensures Replace(a + [sep] + b, ' ', ',') == Replace(a, ' ', ',') + [','] + Replace(b, ' ', ',')
  {
    ReplaceAppend(a + [sep], b);
    ReplaceAppend(a, [sep]);
    assert Replace([sep], ' ', ',') == [','];
  }

  /**
   * Entries keep their left-to-right order: a comma or a space between two
   * option values concatenates their lists.
   */
  lemma ParseListAround(a: string, sep: char, b: string)
    requires sep == ',' || sep == ' '
    ensures ParseList(a + [sep] + b) == ParseList(a) + ParseList(b)
  {
    var ra, rb := Replace(a, ' ', ','), Replace(b, ' ', ',');
    ReplaceAround(a, sep, b);
    SplitAround(ra, rb, ',');
    EntriesAppend(Split(ra, ','), Split(rb, ','));
  }

  /** An entry on its own parses to itself. */
  lemma ParseListOfEntry(t: string)
    requires IsEntry(t)
    ensures ParseList(t) == [t]
  {
    assert Replace(t, ' ', ',') == t;
    SplitWithoutSeparator(t, ',');
    StripUnchanged(t);
    assert FlatMap(Kept, [t]) == Kept(t) + FlatMap(Kept, []);
  }

  /** Round trip: joining entries with commas and parsing gives the entries back. */
  lemma {:induction false} ParseListJoin(entries: seq<string>)
    requires forall k :: 0 <= k < |entries| ==> IsEntry(entries[k])
    ensures ParseList(Join(entries, ',')) == entries
  {
    if entries == [] {
      ParseListOfDefault();
    } else if |entries| == 1 {
      ParseListOfEntry(entries[0]);
    } else {
      ParseListJoin(entries[1..]);
      ParseListOfEntry(entries[0]);
      ParseListAround(entries[0], ',', Join(entries[1..], ','));
      assert entries == [entries[0]] + entries[1..];
    }
  }
}
