// computeStatusCodes and topMessages: failures by code, and the dominant
// messages of each code.
module StatusCodes {
  import opened Folds
  import opened Sorting
  import opened Text
  import opened Records

  const TOP_ERROR_MESSAGES: nat := 3
  const MAX_MESSAGE_LENGTH: nat := 80

  datatype MessageStat = MessageStat(message: string, count: nat)

  datatype CodeStats = CodeStats(code: nat, count: nat, top: seq<MessageStat>)

  datatype CodeBucket = CodeBucket(count: nat, messages: map<string, nat>)

  // ----- truncation

  function Truncate(message: string): string {
    if |message| <= MAX_MESSAGE_LENGTH then message else message[..MAX_MESSAGE_LENGTH] + "..."
  }

  lemma TruncateIdempotent(message: string)
    ensures Truncate(Truncate(message)) == Truncate(message)
    ensures |Truncate(message)| <= MAX_MESSAGE_LENGTH + 3
    ensures Truncate(message) == message <==>
            |message| <= MAX_MESSAGE_LENGTH || message == message[..MAX_MESSAGE_LENGTH] + "..."
  {
    if |message| > MAX_MESSAGE_LENGTH {
      assert Truncate(message)[..MAX_MESSAGE_LENGTH] == message[..MAX_MESSAGE_LENGTH];
    }
  }

  // ----- the message histogram

  function CodeOf(): Result -> nat {
    (r: Result) => if r.err.Some? then r.err.value.code else 0
  }

  function MessageOf(): Result -> string {
    (r: Result) => if r.err.Some? then Truncate(r.err.value.message) else ""
  }

  function CodeGroup(results: seq<Result>, code: nat): seq<Result> {
    Group(Filter(results, Failed()), CodeOf(), code)
  }

  function CodesOf(results: seq<Result>): set<nat> {
    set r | r in results && r.err.Some? :: r.err.value.code
  }

  function Bump(h: map<string, nat>, m: string): map<string, nat> {
    h[m := (if m in h then h[m] else 0) + 1]
  }

  function Histogram(group: seq<Result>): map<string, nat> {
    if group == [] then map[]
    else Bump(Histogram(group[..|group| - 1]), MessageOf()(group[|group| - 1]))
  }

  // The histogram counts the group's results by truncated message.
  lemma {:induction false} HistogramCounts(group: seq<Result>, m: string)
    ensures m in Histogram(group) <==> Group(group, MessageOf(), m) != []
    ensures m in Histogram(group) ==> Histogram(group)[m] == |Group(group, MessageOf(), m)|
  {
    if group != [] {
      var front, r := group[..|group| - 1], group[|group| - 1];
      assert group == front + [r];
      HistogramCounts(front, m);
      GroupAppend(front, r, MessageOf(), m);
    }
  }

  lemma HistogramPermutation(a: seq<Result>, b: seq<Result>)
    requires Permutes(a, b)
    ensures Histogram(a) == Histogram(b)
  {
    hide Histogram;
    forall m | m in Histogram(a).Keys + Histogram(b).Keys
      ensures m in Histogram(a) && m in Histogram(b) && Histogram(a)[m] == Histogram(b)[m]
    {
      HistogramCounts(a, m);
      HistogramCounts(b, m);
      FilterPermutation(a, b, KeyIs(MessageOf(), m));
      PermutationLength(Group(a, MessageOf(), m), Group(b, MessageOf(), m));
    }
    assert Histogram(a).Keys == Histogram(b).Keys;
  }

  // ----- top messages

  // Count descending, then message ascending.
  predicate MessageLess(a: MessageStat, b: MessageStat) {
    if a.count != b.count then a.count > b.count else StringLess(a.message, b.message)
  }

  lemma MessageComparator()
    ensures Comparator(MessageLess)
  {
    forall a, b | MessageLess(a, b) ensures !MessageLess(b, a) {
      StringOrderTotal(a.message, b.message);
    }
    forall a, b, c | !MessageLess(b, a) && !MessageLess(c, b) ensures !MessageLess(c, a) {
      StringOrderTotal(a.message, b.message);
      StringOrderTotal(b.message, c.message);
      StringOrderTotal(a.message, c.message);
      StringOrderTransitive(a.message, b.message, c.message);
    }
  }

  ghost predicate Describes(h: map<string, nat>, stats: seq<MessageStat>) {
    forall t | t in stats :: t.message in h && t.count == h[t.message]
  }

  // The first three of the histogram's entries in rank order, or all of them:
  // whatever is left out ranks after everything that is kept.
  ghost predicate IsTopMessages(h: map<string, nat>, top: seq<MessageStat>) {
    && |top| == (if |h| > TOP_ERROR_MESSAGES then TOP_ERROR_MESSAGES else |h|)
    && StrictlyOrdered(top, MessageLess) && Describes(h, top)
    && forall m | m in h ::
         MessageStat(m, h[m]) in top || forall t | t in top :: MessageLess(t, MessageStat(m, h[m]))
  }

  ghost predicate ListsAll(h: map<string, nat>, visited: set<string>, stats: seq<MessageStat>) {
    && visited <= h.Keys && |stats| == |visited| && Distinct(stats)
    && (forall t | t in stats :: t.message in visited && t.count == h[t.message])
    && (forall m | m in visited :: MessageStat(m, h[m]) in stats)
  }

  lemma ListsOneMore(h: map<string, nat>, visited: set<string>, stats: seq<MessageStat>, m: string)
    requires ListsAll(h, visited, stats) && m in h.Keys - visited
    ensures ListsAll(h, visited + {m}, stats + [MessageStat(m, h[m])])
  {
    forall i | 0 <= i < |stats| ensures stats[i].message != m {
      assert stats[i] in stats;
    }
  }

  method ListMessages(h: map<string, nat>) returns (stats: seq<MessageStat>)
    ensures ListsAll(h, h.Keys, stats)
  {
    stats := [];
    var visited: set<string> := {};
    while h.Keys - visited != {}
      invariant ListsAll(h, visited, stats)
      decreases h.Keys - visited
    {
      var m :| m in h.Keys - visited;
      ListsOneMore(h, visited, stats, m);
      stats := stats + [MessageStat(m, h[m])];
      visited := visited + {m};
    }
    AllVisited(h.Keys, visited);
  }

  method TopMessages(h: map<string, nat>) returns (top: seq<MessageStat>)
    ensures IsTopMessages(h, top)
    ensures forall i, j :: 0 <= i < j < |top| ==>
              || top[i].count > top[j].count
              || (top[i].count == top[j].count && StringLess(top[i].message, top[j].message))
  {
    if |h| == 0 {
      return [];
    }
    var stats := ListMessages(h);
    MessageComparator();
    var ranked := SortSlice(stats, MessageLess);
    RankedPrefixIsTop(h, stats, ranked);
    top := if |ranked| > TOP_ERROR_MESSAGES then ranked[..TOP_ERROR_MESSAGES] else ranked;
    CountThenMessage(top);
  }

  lemma CountThenMessage(top: seq<MessageStat>)
    requires StrictlyOrdered(top, MessageLess)
    ensures forall i, j :: 0 <= i < j < |top| ==>
              || top[i].count > top[j].count
              || (top[i].count == top[j].count && StringLess(top[i].message, top[j].message))
  {
    forall i, j | 0 <= i < j < |top|
      ensures || top[i].count > top[j].count
              || (top[i].count == top[j].count && StringLess(top[i].message, top[j].message))
    {
      assert MessageLess(top[i], top[j]);
    }
  }

  lemma RankedIsStrict(h: map<string, nat>, stats: seq<MessageStat>, ranked: seq<MessageStat>)
    requires ListsAll(h, h.Keys, stats) && Ordered(ranked, MessageLess) && Permutes(ranked, stats)
    ensures StrictlyOrdered(ranked, MessageLess) && |ranked| == |h|
    ensures forall t | t in ranked :: t.message in h && t.count == h[t.message]
    ensures forall m | m in h :: MessageStat(m, h[m]) in ranked
  {
    hide MessageLess, Ordered, StrictlyOrdered;
    forall x, y | x in stats && y in stats && x != y ensures MessageLess(x, y) || MessageLess(y, x) {
      MessagesApart(x, y);
    }
    OrderedIsStrict(stats, ranked, MessageLess);
    PermutationLength(ranked, stats);
    assert |h| == |h.Keys|;
    forall t ensures t in ranked <==> t in stats {
      InPermutation(ranked, stats, t);
    }
  }

  lemma RankedPrefixIsTop(h: map<string, nat>, stats: seq<MessageStat>, ranked: seq<MessageStat>)
    requires ListsAll(h, h.Keys, stats) && Ordered(ranked, MessageLess) && Permutes(ranked, stats)
    ensures IsTopMessages(h, if |ranked| > TOP_ERROR_MESSAGES then ranked[..TOP_ERROR_MESSAGES] else ranked)
  {
    hide MessageLess, ListsAll, Ordered;
    RankedIsStrict(h, stats, ranked);
    var top := if |ranked| > TOP_ERROR_MESSAGES then ranked[..TOP_ERROR_MESSAGES] else ranked;
    forall t | t in top ensures t in ranked { }
    forall m | m in h
      ensures MessageStat(m, h[m]) in top || forall t | t in top :: MessageLess(t, MessageStat(m, h[m]))
    {
      var i :| 0 <= i < |ranked| && ranked[i] == MessageStat(m, h[m]);
      if i < |top| { assert top[i] == ranked[i]; }
    }
  }

  lemma MessagesApart(x: MessageStat, y: MessageStat)
    ensures x != y ==> MessageLess(x, y) || MessageLess(y, x)
    ensures MessageLess(x, y) ==> !MessageLess(y, x)
  {
    StringOrderTotal(x.message, y.message);
  }

  // Kept counts add up to at most the number of results behind the histogram,
  // and to all of them exactly when there are at most three distinct messages.
  lemma TopCountsIff(group: seq<Result>, top: seq<MessageStat>)
    requires IsTopMessages(Histogram(group), top)
    ensures SumBy(top, StatCount()) <= |group|
    ensures SumBy(top, StatCount()) == |group| <==> |Histogram(group)| <= TOP_ERROR_MESSAGES
  {
    hide Histogram, MessageLess;
    var rest := CountsSplit(group, top);
    var sums := GroupSum(group, MessageOf(), Unit());
    SumAtLeastLength(rest, sums);
    if rest == [] { assert SumBy(rest, sums) == 0; }
  }

  lemma MessageSum(group: seq<Result>, m: string)
    requires m in Histogram(group)
    ensures GroupSum(group, MessageOf(), Unit())(m) == Histogram(group)[m] >= 1
  {
    hide Histogram, MessageOf;
    HistogramCounts(group, m);
    SumOfUnits(Group(group, MessageOf(), m));
  }

  // What the kept messages leave uncounted is counted by the dropped ones.
  lemma CountsSplit(group: seq<Result>, top: seq<MessageStat>) returns (rest: seq<string>)
    requires IsTopMessages(Histogram(group), top)
    ensures var sums := GroupSum(group, MessageOf(), Unit());
            && |group| == SumBy(top, StatCount()) + SumBy(rest, sums)
            && (forall m | m in rest :: sums(m) >= 1)
            && |rest| == |Histogram(group)| - |top|
  {
    hide Histogram, MessageLess, MessageOf, GroupSum, SumBy;
    var h, kept := Histogram(group), Apply(top, StatMessage());
    var sums := GroupSum(group, MessageOf(), Unit());
    rest := Enumerate(h.Keys - (set m | m in kept));
    KeptMessages(h, top);
    forall m | m in h ensures sums(m) == h[m] >= 1 {
      MessageSum(group, m);
    }
    SumApply(top, StatMessage(), sums, StatCount());
    WholePartition(group, kept, rest);
    SumConcat(kept, rest, sums);
  }

  function StatCount(): MessageStat -> int {
    (t: MessageStat) => t.count
  }

  function StatMessage(): MessageStat -> string {
    (t: MessageStat) => t.message
  }

  lemma KeptMessages(h: map<string, nat>, top: seq<MessageStat>)
    requires IsTopMessages(h, top)
    ensures var kept := Apply(top, StatMessage());
            Distinct(kept) && (forall m | m in kept :: m in h) && |set m | m in kept| == |top|
  {
    hide MessageLess;
    var kept := Apply(top, StatMessage());
    StrictIsDistinct(top);
    forall i | 0 <= i < |top| ensures top[i].message in h && top[i].count == h[top[i].message] {
      assert top[i] in top;
    }
    DistinctSize(kept);
  }

  // The kept messages and the rest together are all keys, once each.
  ghost predicate Covers(keys: set<string>, kept: seq<string>, rest: seq<string>) {
    && Distinct(kept) && Distinct(rest)
    && (forall m | m in kept :: m in keys) && (forall m | m in rest :: m in keys && m !in kept)
    && (forall m | m in keys :: m in kept || m in rest)
  }

  lemma WholePartition(group: seq<Result>, kept: seq<string>, rest: seq<string>)
    requires Covers(Histogram(group).Keys, kept, rest)
    ensures SumBy(kept + rest, GroupSum(group, MessageOf(), Unit())) == |group|
    ensures |rest| == |Histogram(group)| - |set m | m in kept|
  {
    hide Histogram, MessageOf;
    var h := Histogram(group);
    CoverIsPartition(h.Keys, kept, rest);
    forall r | r in group ensures MessageOf()(r) in kept + rest {
      assert r in Group(group, MessageOf(), MessageOf()(r));
      HistogramCounts(group, MessageOf()(r));
      assert MessageOf()(r) in h.Keys;
    }
    PartitionSum(group, kept + rest, MessageOf(), Unit());
    SumOfUnits(group);
    assert |h| == |h.Keys|;
  }

  lemma CoverIsPartition(keys: set<string>, kept: seq<string>, rest: seq<string>)
    requires Covers(keys, kept, rest)
    ensures Distinct(kept + rest) && |rest| == |keys| - |set m | m in kept|
  {
    var all := kept + rest;
    forall i, j | 0 <= i < j < |all| ensures all[i] != all[j] {
      if i < |kept| <= j { assert all[j] in rest && all[i] in kept; }
    }
    DistinctSize(rest);
    assert (set m | m in rest) == keys - (set m | m in kept);
    assert (set m | m in kept) <= keys;
  }

  lemma {:induction false} SumAtLeastLength<T>(s: seq<T>, f: T -> int)
    requires forall x | x in s :: f(x) >= 1
    ensures SumBy(s, f) >= |s|
  {
    if s != [] { SumAtLeastLength(s[..|s| - 1], f); }
  }

  lemma StrictIsDistinct(top: seq<MessageStat>)
    requires StrictlyOrdered(top, MessageLess)
    ensures Distinct(top) && |set t | t in top| == |top|
  {
    hide MessageLess;
    forall i, j | 0 <= i < j < |top| ensures top[i] != top[j] {
      MessagesApart(top[i], top[j]);
    }
    DistinctSize(top);
  }

  lemma {:induction false} DistinctSize<T>(s: seq<T>)
    requires Distinct(s)
    ensures |set x | x in s| == |s|
  {
    if s != [] {
      var front, last := s[..|s| - 1], s[|s| - 1];
      assert s == front + [last];
      DistinctSize(front);
      assert (set x | x in s) == (set x | x in front) + {last};
    }
  }

  lemma SubsetSameSize<T>(a: set<T>, b: set<T>)
    requires a <= b && |a| == |b|
    ensures a == b
  {
    assert |b - a| == |b| - |a|;
    assert b - a == {};
  }

  // Two lists cannot each keep a message the other drops.
  lemma NoExchange(h: map<string, nat>, a: seq<MessageStat>, b: seq<MessageStat>, x: MessageStat, y: MessageStat)
    requires IsTopMessages(h, a) && IsTopMessages(h, b)
    requires x in a && x !in b && y in b
    ensures y in a
  {
    hide MessageLess;
    assert MessageStat(x.message, h[x.message]) == x && MessageStat(y.message, h[y.message]) == y;
    MessagesApart(x, y);
  }

  // A kept message of one list is kept by the other.
  lemma TopContained(h: map<string, nat>, a: seq<MessageStat>, b: seq<MessageStat>)
    requires IsTopMessages(h, a) && IsTopMessages(h, b)
    ensures forall t | t in a :: t in b
  {
    hide MessageLess;
    StrictIsDistinct(a);
    StrictIsDistinct(b);
    var sa, sb := set t | t in a, set t | t in b;
    forall x | x in a ensures x in b {
      assert x in sa;
      if x !in b {
        forall y | y in b ensures y in a { NoExchange(h, a, b, x, y); }
        SubsetSameSize(sb, sa);
      }
    }
  }

  lemma TopMessagesUnique(h: map<string, nat>, a: seq<MessageStat>, b: seq<MessageStat>)
    requires IsTopMessages(h, a) && IsTopMessages(h, b)
    ensures a == b
  {
    TopContained(h, a, b);
    TopContained(h, b, a);
    MessageComparator();
    StrictlyOrderedUnique(a, b, MessageLess);
  }

  // ----- by status code

  // Count descending, then code ascending.
  predicate CodeLess(a: CodeStats, b: CodeStats) {
    if a.count != b.count then a.count > b.count else a.code < b.code
  }

  function CodeBucketOf(group: seq<Result>): CodeBucket {
    CodeBucket(|group|, Histogram(group))
  }

  ghost predicate CodeBucketsMatch(buckets: map<nat, CodeBucket>, results: seq<Result>) {
    && buckets.Keys == CodesOf(results)
    && forall c | c in buckets :: buckets[c] == CodeBucketOf(CodeGroup(results, c))
  }

  ghost predicate LineDescribes(results: seq<Result>, b: CodeStats) {
    && b.count == |CodeGroup(results, b.code)|
    && IsTopMessages(Histogram(CodeGroup(results, b.code)), b.top)
  }

  // One line for each code that failed, in strict order.
  ghost predicate IsStatusCodes(results: seq<Result>, out: seq<CodeStats>) {
    && StrictlyOrdered(out, CodeLess)
    && (forall b | b in out :: b.code in CodesOf(results) && LineDescribes(results, b))
    && (forall c | c in CodesOf(results) :: exists b :: b in out && b.code == c)
  }

  lemma CodeGroupAppend(results: seq<Result>, r: Result, c: nat)
    ensures CodeGroup(results + [r], c) ==
            CodeGroup(results, c) + (if r.err.Some? && r.err.value.code == c then [r] else [])
  {
    FilterAppend(results, r, Failed());
    if r.err.Some? { GroupAppend(Filter(results, Failed()), r, CodeOf(), c); }
  }

  lemma CodesAppend(results: seq<Result>, r: Result)
    ensures CodesOf(results + [r]) == CodesOf(results) + (if r.err.Some? then {r.err.value.code} else {})
  {
  }

  lemma CodeGroupNonempty(results: seq<Result>, c: nat)
    ensures CodeGroup(results, c) != [] <==> c in CodesOf(results)
  {
    if c in CodesOf(results) {
      var r :| r in results && r.err.Some? && r.err.value.code == c;
      assert r in CodeGroup(results, c);
    }
    var g := CodeGroup(results, c);
    if g != [] { assert g[0] in g; }
  }

  lemma HistogramAppend(group: seq<Result>, r: Result)
    ensures Histogram(group + [r]) == Bump(Histogram(group), MessageOf()(r))
  {
    assert (group + [r])[..|group|] == group;
  }

  // What the map holds for r's code once r is added: the program's update.
  lemma CodeBucketGrows(buckets: map<nat, CodeBucket>, results: seq<Result>, r: Result)
    requires CodeBucketsMatch(buckets, results) && r.err.Some?
    ensures var code := r.err.value.code;
            var b := if code in buckets then buckets[code] else CodeBucket(0, map[]);
            CodeBucketOf(CodeGroup(results + [r], code)) == CodeBucket(b.count + 1, Bump(b.messages, MessageOf()(r)))
  {
    hide CodesOf, Bump, CodeGroup, MessageOf;
    var code := r.err.value.code;
    CodeGroupNonempty(results, code);
    HistogramAppend(CodeGroup(results, code), r);
    CodeGroupAppend(results, r, code);
  }

  lemma CodeBucketAdded(buckets: map<nat, CodeBucket>, results: seq<Result>, r: Result, b: CodeBucket)
    requires CodeBucketsMatch(buckets, results) && r.err.Some?
    requires b == CodeBucketOf(CodeGroup(results + [r], r.err.value.code))
    ensures CodeBucketsMatch(buckets[r.err.value.code := b], results + [r])
  {
    hide CodesOf, CodeBucketOf, CodeGroup;
    CodesAppend(results, r);
    forall c | c in buckets && c != r.err.value.code ensures CodeGroup(results + [r], c) == CodeGroup(results, c) {
      CodeGroupAppend(results, r, c);
    }
  }

  lemma CodeBucketsSkip(buckets: map<nat, CodeBucket>, results: seq<Result>, r: Result)
    requires CodeBucketsMatch(buckets, results) && r.err.None?
    ensures CodeBucketsMatch(buckets, results + [r])
  {
    CodesAppend(results, r);
    forall c | c in buckets ensures CodeGroup(results + [r], c) == CodeGroup(results, c) {
      CodeGroupAppend(results, r, c);
    }
  }

  method FillCodeBuckets(results: seq<Result>) returns (buckets: map<nat, CodeBucket>)
    ensures CodeBucketsMatch(buckets, results)
  {
    buckets := map[];
    for i := 0 to |results|
      invariant CodeBucketsMatch(buckets, results[..i])
    {
      hide CodeBucketsMatch, Truncate;
      var r := results[i];
      assert results[..i + 1] == results[..i] + [r];
      if r.err.None? {
        CodeBucketsSkip(buckets, results[..i], r);
        continue;
      }
      buckets := CountFailure(buckets, results[..i], r);
    }
    assert results[..|results|] == results;
  }

  // The loop body for a failure: find or create the bucket, then count the
  // result and its message in it.
  method CountFailure(buckets: map<nat, CodeBucket>, ghost before: seq<Result>, r: Result)
    returns (after: map<nat, CodeBucket>)
    requires CodeBucketsMatch(buckets, before) && r.err.Some?
    ensures CodeBucketsMatch(after, before + [r])
  {
    hide CodeBucketsMatch, Truncate, CodeBucketOf, CodeGroup;
    var code, msg := r.err.value.code, Truncate(r.err.value.message);
    var b := if code in buckets then buckets[code] else CodeBucket(0, map[]);
    b := b.(count := b.count + 1);
    b := b.(messages := b.messages[msg := (if msg in b.messages then b.messages[msg] else 0) + 1]);
    CodeBucketGrows(buckets, before, r);
    CodeBucketAdded(buckets, before, r, b);
    after := buckets[code := b];
  }

  ghost predicate EmittedCodes(buckets: map<nat, CodeBucket>, visited: set<nat>, out: seq<CodeStats>) {
    && visited <= buckets.Keys
    && (forall i, j :: 0 <= i < j < |out| ==> out[i].code != out[j].code)
    && (forall b | b in out ::
          b.code in visited && b.count == buckets[b.code].count && IsTopMessages(buckets[b.code].messages, b.top))
    && (forall c | c in visited :: exists b :: b in out && b.code == c)
  }

  lemma EmittedOneMore(buckets: map<nat, CodeBucket>, visited: set<nat>, out: seq<CodeStats>, b: CodeStats)
    requires EmittedCodes(buckets, visited, out) && b.code in buckets.Keys - visited
    requires b.count == buckets[b.code].count && IsTopMessages(buckets[b.code].messages, b.top)
    ensures EmittedCodes(buckets, visited + {b.code}, out + [b])
  {
    hide IsTopMessages;
    forall i | 0 <= i < |out| ensures out[i].code != b.code { assert out[i] in out; }
    forall c | c in visited + {b.code} ensures exists x :: x in out + [b] && x.code == c {
      if c in visited {
        var x :| x in out && x.code == c;
        assert x in out + [b];
      } else {
        assert b in out + [b];
      }
    }
  }

  method EmitCodes(buckets: map<nat, CodeBucket>) returns (out: seq<CodeStats>)
    ensures EmittedCodes(buckets, buckets.Keys, out)
  {
    out := [];
    var visited: set<nat> := {};
    while buckets.Keys - visited != {}
      invariant EmittedCodes(buckets, visited, out)
      decreases buckets.Keys - visited
    {
      hide IsTopMessages;
      var code :| code in buckets.Keys - visited;
      var top := TopMessages(buckets[code].messages);
      var line := CodeStats(code, buckets[code].count, top);
      EmittedOneMore(buckets, visited, out, line);
      out := out + [line];
      visited := visited + {code};
    }
    AllVisited(buckets.Keys, visited);
  }

  lemma CodeComparator()
    ensures Comparator(CodeLess)
  {
  }

  method ComputeStatusCodes(results: seq<Result>) returns (out: seq<CodeStats>)
    ensures IsStatusCodes(results, out)
    ensures forall i, j :: 0 <= i < j < |out| ==>
              out[i].count > out[j].count || (out[i].count == out[j].count && out[i].code < out[j].code)
  {
    if |results| == 0 {
      return [];
    }
    var buckets := FillCodeBuckets(results);
    if |buckets| == 0 {
      assert buckets.Keys == {};
      return [];
    }
    var lines := EmitCodes(buckets);
    CodeComparator();
    out := SortSlice(lines, CodeLess);
    SortedCodes(results, buckets, lines, out);
    CountThenCode(out);
  }

  lemma CountThenCode(out: seq<CodeStats>)
    requires StrictlyOrdered(out, CodeLess)
    ensures forall i, j :: 0 <= i < j < |out| ==>
              out[i].count > out[j].count || (out[i].count == out[j].count && out[i].code < out[j].code)
  {
    forall i, j | 0 <= i < j < |out|
      ensures out[i].count > out[j].count || (out[i].count == out[j].count && out[i].code < out[j].code)
    {
      assert CodeLess(out[i], out[j]);
    }
  }

  lemma EmittedStrict(buckets: map<nat, CodeBucket>, lines: seq<CodeStats>, out: seq<CodeStats>)
    requires EmittedCodes(buckets, buckets.Keys, lines)
    requires Ordered(out, CodeLess) && Permutes(out, lines)
    ensures StrictlyOrdered(out, CodeLess)
  {
    hide IsTopMessages;
    forall x, y | x in lines && y in lines && x != y ensures CodeLess(x, y) || CodeLess(y, x) {
      var i :| 0 <= i < |lines| && lines[i] == x;
      var j :| 0 <= j < |lines| && lines[j] == y;
    }
    OrderedIsStrict(lines, out, CodeLess);
  }

  lemma SortedCodes(results: seq<Result>, buckets: map<nat, CodeBucket>, lines: seq<CodeStats>, out: seq<CodeStats>)
    requires CodeBucketsMatch(buckets, results) && EmittedCodes(buckets, buckets.Keys, lines)
    requires Ordered(out, CodeLess) && Permutes(out, lines)
    ensures IsStatusCodes(results, out)
  {
    hide IsTopMessages, CodesOf, CodeGroup, Histogram;
    EmittedStrict(buckets, lines, out);
    forall b | b in out ensures b in lines { InPermutation(out, lines, b); }
    forall c | c in CodesOf(results) ensures exists b :: b in out && b.code == c {
      var b :| b in lines && b.code == c;
      InPermutation(out, lines, b);
    }
  }

  lemma LineUnique(results: seq<Result>, a: CodeStats, b: CodeStats)
    requires a.code == b.code && LineDescribes(results, a) && LineDescribes(results, b)
    ensures a == b
  {
    TopMessagesUnique(Histogram(CodeGroup(results, a.code)), a.top, b.top);
  }

  lemma CodesContained(results: seq<Result>, a: seq<CodeStats>, b: seq<CodeStats>)
    requires IsStatusCodes(results, a) && IsStatusCodes(results, b)
    ensures forall x | x in a :: x in b
  {
    hide LineDescribes, CodesOf;
    forall x | x in a ensures x in b {
      var y :| y in b && y.code == x.code;
      LineUnique(results, x, y);
    }
  }

  // The list is determined by the results, whatever order the maps are visited in.
  lemma StatusCodesUnique(results: seq<Result>, a: seq<CodeStats>, b: seq<CodeStats>)
    requires IsStatusCodes(results, a) && IsStatusCodes(results, b)
    ensures a == b
  {
    CodesContained(results, a, b);
    CodesContained(results, b, a);
    CodeComparator();
    StrictlyOrderedUnique(a, b, CodeLess);
  }

  lemma StatusCodesPermutation(a: seq<Result>, b: seq<Result>, out: seq<CodeStats>)
    requires Permutes(a, b) && IsStatusCodes(a, out)
    ensures IsStatusCodes(b, out)
  {
    hide IsTopMessages, Histogram, CodeGroup;
    assert CodesOf(a) == CodesOf(b) by {
      forall r ensures r in a <==> r in b { InPermutation(a, b, r); }
    }
    forall line | line in out ensures LineDescribes(b, line) {
      GroupPermutation(a, b, line.code);
      HistogramPermutation(CodeGroup(a, line.code), CodeGroup(b, line.code));
      PermutationLength(CodeGroup(a, line.code), CodeGroup(b, line.code));
    }
  }

  lemma GroupPermutation(a: seq<Result>, b: seq<Result>, c: nat)
    requires Permutes(a, b)
    ensures Permutes(CodeGroup(a, c), CodeGroup(b, c))
  {
    FilterPermutation(a, b, Failed());
    FilterPermutation(Filter(a, Failed()), Filter(b, Failed()), KeyIs(CodeOf(), c));
  }

  // ----- conservation

  function LineCode(): CodeStats -> nat {
    (b: CodeStats) => b.code
  }

  function CodeCount(): CodeStats -> int {
    (b: CodeStats) => b.count
  }

  // The codes' counts add up to the number of failed results.
  lemma StatusCodeTotals(results: seq<Result>, out: seq<CodeStats>)
    requires IsStatusCodes(results, out)
    ensures SumBy(out, CodeCount()) == |Filter(results, Failed())|
  {
    hide IsTopMessages, Histogram;
    var failures, codes := Filter(results, Failed()), Apply(out, LineCode());
    forall i, j | 0 <= i < j < |codes| ensures codes[i] != codes[j] {
      assert out[i] in out && out[j] in out && CodeLess(out[i], out[j]);
    }
    forall r | r in failures ensures CodeOf()(r) in codes {
      assert r.err.value.code in CodesOf(results);
      var b :| b in out && b.code == r.err.value.code;
      var i :| 0 <= i < |out| && out[i] == b;
      assert codes[i] == CodeOf()(r);
    }
    var sums := GroupSum(failures, CodeOf(), Unit());
    PartitionSum(failures, codes, CodeOf(), Unit());
    SumOfUnits(failures);
    forall b | b in out ensures b.count == sums(b.code) {
      SumOfUnits(CodeGroup(results, b.code));
    }
    SumApply(out, LineCode(), sums, CodeCount());
  }

  // A code has a line exactly when some result failed with it.
  lemma CodeListedIff(results: seq<Result>, out: seq<CodeStats>, c: nat)
    requires IsStatusCodes(results, out)
    ensures (exists b :: b in out && b.code == c) <==>
            (exists r :: r in results && r.err.Some? && r.err.value.code == c)
  {
    hide LineDescribes;
    assert c in CodesOf(results) <==> exists r :: r in results && r.err.Some? && r.err.value.code == c;
  }
}
