/**
 * The analysis of a capture log (`TrafficCapture.analyze_capture`): comment
 * lines are dropped, the rest are counted as packets, the protocol column of
 * every well-formed record is tallied in a dictionary, and the tally is
 * reported by decreasing count without the empty protocol.
 *
 * The log is read as the list of lines `readlines()` returns (each still
 * ending in its newline, `Strings.Lines`). The dictionary is modelled as Python 3.7+ keeps it:
 * the keys in insertion order, beside a map from key to count.
 */
module Analysis {
  import opened Wrappers
  import opened Strings

  /** `line.startswith('#')`. */
  predicate IsComment(line: string) {
    |line| > 0 && line[0] == '#'
  }

  /** The lines that are not comments, in file order. */
  function DataLines(lines: seq<string>): seq<string>
  {
    if lines == [] then []
    else
      var last := lines[|lines| - 1];
      assert lines == lines[..|lines| - 1] + [last];
      DataLines(lines[..|lines| - 1]) + (if IsComment(last) then [] else [last])
  }

  /** The data lines are exactly the lines that are not comments. */
  lemma {:induction false} DataLinesMembers(lines: seq<string>)
    ensures forall l :: l in DataLines(lines) <==> l in lines && !IsComment(l)
  {
    if lines != [] {
      var init := lines[..|lines| - 1];
      assert lines == init + [lines[|lines| - 1]];
      DataLinesMembers(init);
    }
  }

  /** A file of comments only holds no packet. */
  lemma {:induction false} DataLinesComments(lines: seq<string>)
    requires forall k :: 0 <= k < |lines| ==> IsComment(lines[k])
    ensures DataLines(lines) == []
  {
    if lines != [] {
      DataLinesComments(lines[..|lines| - 1]);
    }
  }

  lemma {:induction false} DataLinesAppend(a: seq<string>, b: seq<string>)
    ensures DataLines(a + b) == DataLines(a) + DataLines(b)
    decreases |b|
  {
    if b != [] {
      var b' := b[..|b| - 1];
      assert (a + b)[..|a + b| - 1] == a + b';
      DataLinesAppend(a, b');
    } else {
      assert a + b == a;
    }
  }

  /** At most one packet per line, and exactly one per line when no line is a comment. */
  lemma {:induction false} DataLinesAll(lines: seq<string>)
    ensures |DataLines(lines)| <= |lines|
    ensures |DataLines(lines)| == |lines| <==> forall i :: 0 <= i < |lines| ==> !IsComment(lines[i])
  {
    if lines != [] {
      var init := lines[..|lines| - 1];
      DataLinesAll(init);
      if |DataLines(lines)| == |lines| {
        assert |DataLines(init)| == |init|;
        forall i | 0 <= i < |lines| ensures !IsComment(lines[i]) {
          if i < |init| { assert lines[i] == init[i]; }
        }
      }
      if forall i :: 0 <= i < |lines| ==> !IsComment(lines[i]) {
        assert forall i :: 0 <= i < |init| ==> !IsComment(init[i]) by {
          forall i | 0 <= i < |init| ensures !IsComment(init[i]) { assert init[i] == lines[i]; }
        }
      }
    }
  }

  /**
   * The protocol a data line contributes, if any: the line must contain `|`,
   * split into at least eight fields, and then its key is the eighth field with
   * surrounding whitespace stripped (quotes are kept).
   */
  function ProtocolField(line: string): Option<string>
  {
    if '|' in line then
      var fields := Split(line, '|');
      if |fields| >= 8 then Some(Strip(fields[7])) else None
    else None
  }

  /** A data line qualifies exactly when it holds at least seven separators. */
  lemma ProtocolFieldQualifies(line: string)
    ensures ProtocolField(line).Some? <==> multiset(line)['|'] >= 7
  {
    SplitSpec(line, '|');
  }

  /** A record that tshark printed with at least eight `|`-separated columns contributes its eighth column. */
  lemma RecordProtocol(columns: seq<string>)
    requires |columns| >= 8
    requires forall k :: 0 <= k < |columns| ==> '|' !in columns[k]
    ensures ProtocolField(Join(columns, '|')) == Some(Strip(columns[7]))
  {
    SplitJoin(columns, '|');
  }

  /** `[f(x) for x in xs if f(x) is not None]`: the values a partial map yields, in order. */
  function Collect<X, Y>(f: X -> Option<Y>, xs: seq<X>): seq<Y>
  {
    if xs == [] then []
    else
      Collect(f, xs[..|xs| - 1]) + match f(xs[|xs| - 1]) case Some(y) => [y] case None => []
  }

  lemma {:induction false} CollectAppend<X, Y>(f: X -> Option<Y>, a: seq<X>, b: seq<X>)
    ensures Collect(f, a + b) == Collect(f, a) + Collect(f, b)
    decreases |b|
  {
    if b != [] {
      var b' := b[..|b| - 1];
      assert (a + b)[..|a + b| - 1] == a + b';
      CollectAppend(f, a, b');
    } else {
      assert a + b == a;
    }
  }

  lemma CollectStep<X, Y>(f: X -> Option<Y>, xs: seq<X>, i: nat)
    requires i < |xs|
    ensures f(xs[i]).None? ==> Collect(f, xs[..i + 1]) == Collect(f, xs[..i])
    ensures f(xs[i]).Some? ==> Collect(f, xs[..i + 1]) == Collect(f, xs[..i]) + [f(xs[i]).value]
  {
    assert xs[..i + 1][..i] == xs[..i];
  }

  lemma {:induction false} CollectAll<X, Y>(f: X -> Option<Y>, xs: seq<X>)
    ensures |Collect(f, xs)| <= |xs|
    ensures |Collect(f, xs)| == |xs| <==> forall i :: 0 <= i < |xs| ==> f(xs[i]).Some?
  {
    if xs != [] {
      var init := xs[..|xs| - 1];
      CollectAll(f, init);
      if |Collect(f, xs)| == |xs| {
        forall i | 0 <= i < |xs| ensures f(xs[i]).Some? {
          if i < |init| { assert xs[i] == init[i]; }
        }
      }
      if forall i :: 0 <= i < |xs| ==> f(xs[i]).Some? {
        assert forall i :: 0 <= i < |init| ==> f(init[i]).Some? by {
          forall i | 0 <= i < |init| ensures f(init[i]).Some? { assert init[i] == xs[i]; }
        }
      }
    }
  }

  /** The protocol keys of the qualifying data lines, in file order. */
  function Protocols(data: seq<string>): seq<string>
  {
    Collect(ProtocolField, data)
  }

  /**
   * At most one protocol per data line, and exactly one per line when every
   * data line qualifies.
   */
  lemma ProtocolsAll(data: seq<string>)
    ensures |Protocols(data)| <= |data|
    ensures |Protocols(data)| == |data| <==> forall i :: 0 <= i < |data| ==> ProtocolField(data[i]).Some?
  {
    CollectAll(ProtocolField, data);
  }

  /** `counts.get(k, 0)`. */
  function Get(counts: map<string, nat>, k: string): nat {
    if k in counts then counts[k] else 0
  }

  /** `protocols[p] = protocols.get(p, 0) + 1` applied to each key in turn, starting from `{}`. */
  function Tally(ps: seq<string>): map<string, nat>
  {
    if ps == [] then map[]
    else
      var m := Tally(ps[..|ps| - 1]);
      var p := ps[|ps| - 1];
      m[p := Get(m, p) + 1]
  }

  /** The dictionary holds exactly the keys that occur, each with the number of its occurrences. */
  lemma {:induction false} TallyCounts(ps: seq<string>)
    ensures forall k :: k in Tally(ps) <==> k in ps
    ensures forall k :: k in Tally(ps) ==> Tally(ps)[k] == multiset(ps)[k]
  {
    if ps != [] {
      var init := ps[..|ps| - 1];
      assert ps == init + [ps[|ps| - 1]];
      TallyCounts(init);
    }
  }

  /** The order in which keys enter the dictionary: each protocol once, where it first occurs. */
  function FirstSeen(ps: seq<string>): seq<string>
  {
    if ps == [] then []
    else
      var keys := FirstSeen(ps[..|ps| - 1]);
      var p := ps[|ps| - 1];
      if p in keys then keys else keys + [p]
  }

  /** The insertion order lists every protocol that occurs, once. */
  lemma {:induction false} FirstSeenKeys(ps: seq<string>)
    ensures forall k :: k in FirstSeen(ps) <==> k in ps
    ensures forall i, j :: 0 <= i < j < |FirstSeen(ps)| ==> FirstSeen(ps)[i] != FirstSeen(ps)[j]
  {
    if ps != [] {
      var init := ps[..|ps| - 1];
      assert ps == init + [ps[|ps| - 1]];
      FirstSeenKeys(init);
    }
  }

  /** Keys enter the dictionary in order of their first occurrence. */
  lemma {:induction false} FirstSeenOrder(ps: seq<string>)
    ensures forall k :: k in FirstSeen(ps) ==> k in ps
    ensures forall a, b :: 0 <= a < b < |FirstSeen(ps)| ==>
              IndexOf(ps, FirstSeen(ps)[a]) < IndexOf(ps, FirstSeen(ps)[b])
  {
    FirstSeenKeys(ps);
    if ps != [] {
      var init, p := ps[..|ps| - 1], ps[|ps| - 1];
      assert ps == init + [p];
      FirstSeenOrder(init);
      FirstSeenKeys(init);
      var keys := FirstSeen(init);
      forall k | k in keys ensures IndexOf(ps, k) == IndexOf(init, k) < |init| {
        IndexOfAppend(init, [p], k);
      }
      if p !in keys {
        IndexOfAppend(init, [p], p);
        assert IndexOf(ps, p) == |init|;
      }
    }
  }

  /** Counting one more occurrence of `p`: a new key goes last with count one, a known key gains one. */
  lemma DictionaryStep(ps: seq<string>, p: string)
    ensures p in Tally(ps) <==> p in FirstSeen(ps)
    ensures FirstSeen(ps + [p]) == if p in FirstSeen(ps) then FirstSeen(ps) else FirstSeen(ps) + [p]
    ensures Tally(ps + [p]) == Tally(ps)[p := Get(Tally(ps), p) + 1]
  {
    assert (ps + [p])[..|ps|] == ps;
    TallyKeys(ps, p);
  }

  lemma TallyKeys(ps: seq<string>, p: string)
    ensures p in Tally(ps) <==> p in FirstSeen(ps)
  {
    TallyCounts(ps);
    FirstSeenKeys(ps);
  }

  /**
   * The tally loop: the `protocols` dictionary built over the data lines, as
   * its keys in insertion order and its counts.
   */
  method CountProtocols(data: seq<string>) returns (keys: seq<string>, counts: map<string, nat>)
    ensures keys == FirstSeen(Protocols(data))
    ensures counts == Tally(Protocols(data))
  {
    keys, counts := [], map[];
    ghost var ps: seq<string> := [];
    for i := 0 to |data|
      invariant ps == Protocols(data[..i])
      invariant keys == FirstSeen(ps) && counts == Tally(ps)
    {
      CollectStep(ProtocolField, data, i);
      var field := ProtocolField(data[i]);
      if field.Some? {
        keys, counts := CountOne(keys, counts, field.value, ps);
        ps := ps + [field.value];
      }
    }
    assert data[..|data|] == data;
  }

  /**
   * `protocols[protocol] = protocols.get(protocol, 0) + 1` on the dictionary
   * built from `ps`: a new key goes last with count one, a known key gains one.
   */
  method CountOne(keys: seq<string>, counts: map<string, nat>, protocol: string, ghost ps: seq<string>)
    returns (keys': seq<string>, counts': map<string, nat>)
    requires keys == FirstSeen(ps) && counts == Tally(ps)
    ensures keys' == FirstSeen(ps + [protocol]) && counts' == Tally(ps + [protocol])
  {
    DictionaryStep(ps, protocol);
    keys' := if protocol in counts then keys else keys + [protocol];
    counts' := counts[protocol := Get(counts, protocol) + 1];
  }

  /**
   * The analysis of the lines of the log: `total` is the packet count printed,
   * and `keys`/`counts` is the `protocols` dictionary.
   */
  method AnalyzeLines(lines: seq<string>) returns (total: nat, keys: seq<string>, counts: map<string, nat>)
    ensures total == |DataLines(lines)|
    ensures keys == FirstSeen(Protocols(DataLines(lines)))
    ensures counts == Tally(Protocols(DataLines(lines)))
  {
    var data := DataLines(lines);
    total := |data|;
    keys, counts := CountProtocols(data);
  }

  /** The sum of the counts of `keys`. */
  function SumCounts(keys: seq<string>, counts: map<string, nat>): nat
  {
    if keys == [] then 0
    else SumCounts(keys[..|keys| - 1], counts) + Get(counts, keys[|keys| - 1])
  }

  lemma {:induction false} SumCountsOther(keys: seq<string>, counts: map<string, nat>, p: string, v: nat)
    requires p !in keys
    ensures SumCounts(keys, counts[p := v]) == SumCounts(keys, counts)
  {
    if keys != [] {
      SumCountsOther(keys[..|keys| - 1], counts, p, v);
    }
  }

  lemma {:induction false} SumCountsBump(keys: seq<string>, counts: map<string, nat>, p: string)
    requires forall i, j :: 0 <= i < j < |keys| ==> keys[i] != keys[j]
    requires p in keys
    ensures SumCounts(keys, counts[p := Get(counts, p) + 1]) == SumCounts(keys, counts) + 1
  {
    var init := keys[..|keys| - 1];
    var last := keys[|keys| - 1];
    if last == p {
      assert p !in init;
      SumCountsOther(init, counts, p, Get(counts, p) + 1);
    } else {
      assert p in init;
      SumCountsBump(init, counts, p);
    }
  }

  /** The counts of the dictionary add up to the number of qualifying lines. */
  lemma {:induction false} TallySum(ps: seq<string>)
    ensures SumCounts(FirstSeen(ps), Tally(ps)) == |ps|
  {
    if ps != [] {
      var init := ps[..|ps| - 1];
      var p := ps[|ps| - 1];
      TallySum(init);
      TallyCounts(init);
      FirstSeenKeys(init);
      TallyCounts(ps);
      FirstSeenKeys(ps);
      var keys, m := FirstSeen(init), Tally(init);
      if p in keys {
        SumCountsBump(keys, m, p);
      } else {
        SumCountsOther(keys, m, p, 1);
      }
    }
  }

  /** A dictionary entry: a protocol key and its count. */
  type Entry = (string, nat)

  /** `protocols.items()`: the entries in insertion order. */
  function Items(keys: seq<string>, counts: map<string, nat>): (items: seq<Entry>)
    ensures |items| == |keys|
    ensures forall i :: 0 <= i < |keys| ==> items[i] == (keys[i], Get(counts, keys[i]))
  {
    if keys == [] then [] else [(keys[0], Get(counts, keys[0]))] + Items(keys[1..], counts)
  }

  /** Non-increasing by count. */
  predicate SortedByCount(s: seq<Entry>) {
    forall i, j :: 0 <= i < j < |s| ==> s[i].1 >= s[j].1
  }

  /** The entries with count `c`, in order. */
  function WithCount(s: seq<Entry>, c: nat): seq<Entry> {
    if s == [] then []
    else (if s[0].1 == c then [s[0]] else []) + WithCount(s[1..], c)
  }

  /** Puts `x` into a non-increasing list ahead of every entry whose count it reaches. */
  function Insert(x: Entry, s: seq<Entry>): (r: seq<Entry>)
    requires SortedByCount(s)
    ensures SortedByCount(r)
    ensures |r| == |s| + 1 && (r[0] == x || (s != [] && r[0] == s[0]))
  {
    if s == [] || s[0].1 <= x.1 then [x] + s
    else
      var t := Insert(x, s[1..]);
      assert t[0].1 <= s[0].1;
      [s[0]] + t
  }

  lemma {:induction false} InsertMultiset(x: Entry, s: seq<Entry>)
    requires SortedByCount(s)
    ensures multiset(Insert(x, s)) == multiset(s) + multiset{x}
  {
    if s != [] && s[0].1 > x.1 {
      InsertMultiset(x, s[1..]);
      assert s == [s[0]] + s[1..];
    }
  }

  /**
   * `sorted(items, key=count, reverse=True)`: Python's sort is stable, and
   * with `reverse=True` entries of equal count also keep their order.
   */
  function SortByCount(items: seq<Entry>): (r: seq<Entry>)
    ensures SortedByCount(r)
  {
    if items == [] then [] else Insert(items[0], SortByCount(items[1..]))
  }

  /** The sort is a permutation. */
  lemma {:induction false} SortPermutes(items: seq<Entry>)
    ensures multiset(SortByCount(items)) == multiset(items)
  {
    if items != [] {
      SortPermutes(items[1..]);
      InsertMultiset(items[0], SortByCount(items[1..]));
      assert items == [items[0]] + items[1..];
    }
  }

  lemma {:induction false} WithCountInsert(x: Entry, s: seq<Entry>, c: nat)
    requires SortedByCount(s)
    ensures WithCount(Insert(x, s), c) == (if x.1 == c then [x] else []) + WithCount(s, c)
  {
    if s == [] || s[0].1 <= x.1 {
      assert ([x] + s)[1..] == s;
    } else {
      var t := Insert(x, s[1..]);
      WithCountInsert(x, s[1..], c);
      assert Insert(x, s) == [s[0]] + t;
      assert ([s[0]] + t)[1..] == t;
      assert WithCount(s, c) == (if s[0].1 == c then [s[0]] else []) + WithCount(s[1..], c);
      if x.1 == c {
        assert s[0].1 != c;
      }
    }
  }

  /** The sort is stable: for every count, the entries with that count keep their relative order. */
  lemma {:induction false} SortStable(items: seq<Entry>, c: nat)
    ensures WithCount(SortByCount(items), c) == WithCount(items, c)
  {
    if items != [] {
      SortStable(items[1..], c);
      WithCountInsert(items[0], SortByCount(items[1..]), c);
    }
  }

  /** The loop `if protocol:` that skips the empty key while printing. */
  function NonEmpty(s: seq<Entry>): (r: seq<Entry>)
    ensures forall i :: 0 <= i < |r| ==> r[i].0 != ""
    ensures forall i :: 0 <= i < |r| ==> r[i] in s
  {
    if s == [] then []
    else
      var r := (if s[0].0 != "" then [s[0]] else []) + NonEmpty(s[1..]);
      assert forall i :: 0 <= i < |r| ==> r[i] in s by {
        forall i | 0 <= i < |r| ensures r[i] in s {
          if s[0].0 == "" || i > 0 {
            var j := if s[0].0 == "" then i else i - 1;
            assert r[i] == NonEmpty(s[1..])[j] && r[i] in s[1..];
          }
        }
      }
      r
  }

  lemma {:induction false} NonEmptySorted(s: seq<Entry>)
    requires SortedByCount(s)
    ensures SortedByCount(NonEmpty(s))
  {
    if s != [] {
      NonEmptySorted(s[1..]);
      var t := NonEmpty(s[1..]);
      forall i | 0 <= i < |t| ensures s[0].1 >= t[i].1 {
        var j :| 0 <= j < |s[1..]| && s[1..][j] == t[i];
        assert s[j + 1] == t[i];
      }
    }
  }

  /** The printed distribution: the dictionary's items by decreasing count, without the empty key. */
  function Distribution(keys: seq<string>, counts: map<string, nat>): seq<Entry>
  {
    NonEmpty(SortByCount(Items(keys, counts)))
  }

  /**
   * The distribution lists every non-empty key of the dictionary once, with its
   * count, and nothing else, by non-increasing count; entries of equal count
   * keep insertion order, apart from the empty key.
   */
  lemma DistributionSpec(keys: seq<string>, counts: map<string, nat>, c: nat)
    ensures var d := Distribution(keys, counts);
      && SortedByCount(d)
      && multiset(d) == multiset(NonEmpty(Items(keys, counts)))
      && WithCount(d, c) == NonEmpty(WithCount(Items(keys, counts), c))
  {
    var items := Items(keys, counts);
    var sorted := SortByCount(items);
    SortPermutes(items);
    NonEmptySorted(sorted);
    forall e ensures multiset(NonEmpty(sorted))[e] == multiset(NonEmpty(items))[e] {
      NonEmptyCount(sorted, e);
      NonEmptyCount(items, e);
    }
    SortStable(items, c);
    WithCountNonEmpty(sorted, c);
  }

  /** Dropping the empty key keeps every other entry as often as it occurs. */
  lemma {:induction false} NonEmptyCount(s: seq<Entry>, e: Entry)
    ensures multiset(NonEmpty(s))[e] == if e.0 != "" then multiset(s)[e] else 0
  {
    if s != [] {
      NonEmptyCount(s[1..], e);
      assert s == [s[0]] + s[1..];
      assert multiset(s)[e] == multiset([s[0]])[e] + multiset(s[1..])[e];
    }
  }

  lemma {:induction false} WithCountNonEmpty(s: seq<Entry>, c: nat)
    ensures WithCount(NonEmpty(s), c) == NonEmpty(WithCount(s, c))
  {
    if s != [] {
      WithCountNonEmpty(s[1..], c);
      var x, rest := s[0], NonEmpty(s[1..]);
      if x.0 != "" {
        assert NonEmpty(s) == [x] + rest;
        assert ([x] + rest)[1..] == rest;
      } else {
        assert NonEmpty(s) == rest;
      }
      if x.1 == c {
        assert WithCount(s, c) == [x] + WithCount(s[1..], c);
        assert ([x] + WithCount(s[1..], c))[1..] == WithCount(s[1..], c);
      } else {
        assert WithCount(s, c) == WithCount(s[1..], c);
      }
    }
  }

  /** What the analysis reports for an existing log: the packet count and the printed distribution. */
  datatype Report = Report(total: nat, distribution: seq<Entry>)

  /** The report over a log's lines: the data lines counted, and the distribution of their protocols. */
  function ReportOf(lines: seq<string>): Report
  {
    var ps := Protocols(DataLines(lines));
    Report(|DataLines(lines)|, Distribution(FirstSeen(ps), Tally(ps)))
  }

  /**
   * `analyze_capture` on the output file, given as its contents: `None` when
   * the file does not exist (the early return), otherwise the report over the
   * lines `readlines()` gives.
   */
  method AnalyzeCapture(file: Option<string>) returns (report: Option<Report>)
    ensures file.None? <==> report.None?
    ensures file.Some? ==> report.value == ReportOf(Lines(file.value))
  {
    if file.None? {
      return None;
    }
    var lines := Lines(file.value);
    var total, keys, counts := AnalyzeLines(lines);
    report := Some(Report(total, Distribution(keys, counts)));
  }
}
