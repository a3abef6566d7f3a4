/**
 * screens/Progress.tsx: the 90-day consistency heatmap, the trend chart, the
 * sleep-to-mood pairs and the word cloud.  Check-ins are newest first, as the
 * user document stores them.  The word cloud starts from the sequence of
 * lower-cased word tokens of the journal text.
 */
module Progress {
  import opened Types

  const HEATMAP_DAYS := 90
  const CHART_SIZE := 30
  const CLOUD_SIZE := 30

  /** `xs.slice().reverse()`. */
  function Reverse<T>(xs: seq<T>): (r: seq<T>)
    ensures |r| == |xs|
    ensures forall k :: 0 <= k < |xs| ==> r[k] == xs[|xs| - 1 - k]
  {
    if |xs| == 0 then [] else Reverse(xs[1..]) + [xs[0]]
  }

  predicate CheckedInOn(checkIns: seq<CheckIn>, day: Day)
  {
    exists c :: c in checkIns && c.date == day
  }

  datatype HeatCell = HeatCell(date: Day, checkedIn: bool)

  /** The heatmap: the 90 days ending today, built newest first and then reversed. */
  function Heatmap(checkIns: seq<CheckIn>, today: Day): (r: seq<HeatCell>)
    ensures |r| == HEATMAP_DAYS
    ensures forall k :: 0 <= k < HEATMAP_DAYS ==> r[k].date == today - (HEATMAP_DAYS - 1) + k
    ensures forall k :: 0 <= k < HEATMAP_DAYS ==> (r[k].checkedIn <==> CheckedInOn(checkIns, r[k].date))
  {
    var dates := set c | c in checkIns :: c.date;
    Reverse(seq(HEATMAP_DAYS, i requires 0 <= i < HEATMAP_DAYS => HeatCell(today - i, today - i in dates)))
  }

  /** The heatmap ends on today and covers consecutive days, oldest first. */
  lemma HeatmapConsecutive(checkIns: seq<CheckIn>, today: Day, k: int)
    requires 0 <= k < HEATMAP_DAYS - 1
    ensures Heatmap(checkIns, today)[k + 1].date == Heatmap(checkIns, today)[k].date + 1
    ensures Heatmap(checkIns, today)[HEATMAP_DAYS - 1].date == today
  {
  }

  datatype ChartPoint = ChartPoint(date: Day, mood: int, energy: int, sleep: int)

  function PointOf(c: CheckIn): ChartPoint
  {
    ChartPoint(c.date, c.mood, c.energy, c.sleep)
  }

  /** `checkIns.slice(0, 30).reverse().map(...)`: the 30 newest check-ins, oldest first. */
  function ChartData(checkIns: seq<CheckIn>): (r: seq<ChartPoint>)
    ensures |r| == if |checkIns| < CHART_SIZE then |checkIns| else CHART_SIZE
    ensures forall k :: 0 <= k < |r| ==> r[k] == PointOf(checkIns[|r| - 1 - k])
  {
    var recent := Reverse(Take(checkIns, CHART_SIZE));
    seq(|recent|, k requires 0 <= k < |recent| => PointOf(recent[k]))
  }

  /** One point of the scatter chart. */
  datatype SleepMood = SleepMood(sleep: int, mood: int)

  /**
   * `correlationData`: each check-in's mood paired with the sleep of the
   * check-in before it (the next one in the newest-first list).
   */
  method CorrelationData(checkIns: seq<CheckIn>) returns (data: seq<SleepMood>)
    ensures |data| == if |checkIns| == 0 then 0 else |checkIns| - 1
    ensures forall i :: 0 <= i < |data| ==> data[i] == SleepMood(checkIns[i + 1].sleep, checkIns[i].mood)
  {
    data := [];
    var i := 0;
    while i < |checkIns| - 1
      invariant 0 <= i && (|checkIns| > 0 ==> i <= |checkIns| - 1) && (|checkIns| == 0 ==> i == 0)
      invariant |data| == i
      invariant forall j :: 0 <= j < i ==> data[j] == SleepMood(checkIns[j + 1].sleep, checkIns[j].mood)
    {
      var current := checkIns[i];
      var previous := checkIns[i + 1];
      data := data + [SleepMood(previous.sleep, current.mood)];
      i := i + 1;
    }
  }

  // ---------------------------------------------------------------- word cloud

  const STOP_WORDS: set<string> := {
    "i", "me", "my", "myself", "we", "our", "ours", "ourselves", "you", "your", "yours", "yourself",
    "yourselves", "he", "him", "his", "himself", "she", "her", "herself", "it", "its", "itself", "they",
    "them", "their", "theirs", "themselves", "what", "which", "who", "whom", "this", "that", "these",
    "those", "am", "is", "are", "was", "were", "be", "been", "being", "have", "has", "had", "having", "do",
    "does", "did", "doing", "a", "an", "the", "and", "but", "if", "or", "because", "as", "until", "while",
    "of", "at", "by", "for", "with", "about", "against", "between", "into", "through", "during", "before",
    "after", "above", "below", "to", "from", "up", "down", "in", "out", "on", "off", "over", "under",
    "again", "further", "then", "once", "here", "there", "when", "where", "why", "how", "all", "any",
    "both", "each", "few", "more", "most", "other", "some", "such", "no", "nor", "not", "only", "own",
    "same", "so", "than", "too", "very", "s", "t", "can", "will", "just", "don", "should", "now"
  }

  /** A token is counted when it is longer than two characters and not a stop word. */
  predicate Retained(w: string)
  {
    |w| > 2 && w !in STOP_WORDS
  }

  /** Occurrences of `w` among the tokens. */
  function Occurrences(tokens: seq<string>, w: string): nat
    decreases |tokens|
  {
    if |tokens| == 0 then 0
    else Occurrences(tokens[..|tokens| - 1], w) + (if tokens[|tokens| - 1] == w then 1 else 0)
  }

  lemma {:induction false} OccurrencesPositive(tokens: seq<string>, w: string)
    ensures w in tokens <==> Occurrences(tokens, w) > 0
    decreases |tokens|
  {
    if |tokens| > 0 {
      var init := tokens[..|tokens| - 1];
      OccurrencesPositive(init, w);
      assert tokens == init + [tokens[|tokens| - 1]];
    }
  }

  /** The `forEach` that fills the frequency table. */
  method WordFrequencies(tokens: seq<string>) returns (freq: map<string, nat>)
    ensures forall w :: w in freq <==> w in tokens && Retained(w)
    ensures forall w :: w in freq ==> freq[w] == Occurrences(tokens, w) && freq[w] > 0
  {
    freq := map[];
    for i := 0 to |tokens|
      invariant forall w :: w in freq <==> w in tokens[..i] && Retained(w)
      invariant forall w :: w in freq ==> freq[w] == Occurrences(tokens[..i], w)
    {
      var word := tokens[i];
      assert tokens[..i + 1][..i] == tokens[..i];
      assert tokens[..i + 1] == tokens[..i] + [word];
      if |word| > 2 && word !in STOP_WORDS {
        OccurrencesPositive(tokens[..i], word);
        freq := freq[word := (if word in freq then freq[word] else 0) + 1];
      }
    }
    assert tokens[..|tokens|] == tokens;
    forall w | w in freq ensures freq[w] > 0 {
      OccurrencesPositive(tokens, w);
    }
  }

  /** A key of `m` with the largest value. */
  method MaxKey(m: map<string, nat>) returns (w: string)
    requires |m| > 0
    ensures w in m && forall v :: v in m ==> m[v] <= m[w]
  {
    var keys := m.Keys;
    w :| w in keys;
    keys := keys - {w};
    while keys != {}
      invariant keys <= m.Keys && w in m
      invariant forall v :: v in m && v !in keys ==> m[v] <= m[w]
      decreases |keys|
    {
      var v :| v in keys;
      if m[v] > m[w] {
        w := v;
      }
      keys := keys - {v};
    }
  }

  /** The words of a list of entries. */
  ghost function WordsOf(items: seq<(string, nat)>): (r: set<string>)
    ensures forall w :: w in r ==> exists i :: 0 <= i < |items| && items[i].0 == w
  {
    if |items| == 0 then {}
    else
      var init := items[..|items| - 1];
      var r := WordsOf(init) + {items[|items| - 1].0};
      assert forall i :: 0 <= i < |init| ==> init[i] == items[i];
      r
  }

  /** Values never increase along the list. */
  predicate NonIncreasing(items: seq<(string, nat)>)
  {
    forall i, j :: 0 <= i < j < |items| ==> items[i].1 >= items[j].1
  }

  /**
   * Halfway through picking the top entries: `items` have been picked in
   * non-increasing order, `rest` is what remains of `freq`, and nothing left is
   * larger than what was picked.
   */
  ghost predicate Selection(freq: map<string, nat>, items: seq<(string, nat)>, rest: map<string, nat>)
  {
    && rest.Keys <= freq.Keys && (forall w :: w in rest ==> rest[w] == freq[w])
    && NonIncreasing(items)
    && (forall i :: 0 <= i < |items| ==> items[i].0 in freq && items[i].0 !in rest && freq[items[i].0] == items[i].1)
    && (forall i, j :: 0 <= i < j < |items| ==> items[i].0 != items[j].0)
    && freq.Keys == rest.Keys + WordsOf(items)
    && (forall w :: w in rest ==> forall i :: 0 <= i < |items| ==> rest[w] <= items[i].1)
  }

  lemma SelectionStep(freq: map<string, nat>, items: seq<(string, nat)>, rest: map<string, nat>, w: string)
    requires Selection(freq, items, rest)
    requires w in rest && forall v :: v in rest ==> rest[v] <= rest[w]
    ensures Selection(freq, items + [(w, rest[w])], rest - {w})
  {
    var items' := items + [(w, rest[w])];
    var rest' := rest - {w};
    assert rest'.Keys == rest.Keys - {w};
    assert items'[..|items'| - 1] == items;
    assert WordsOf(items') == WordsOf(items) + {w};
    StepNonIncreasing(items, w, rest[w]);
    StepEntries(freq, items, rest, w);
    StepBounded(items, rest, w);
  }

  lemma RemoveKeyCard(m: map<string, nat>, w: string)
    requires w in m
    ensures |m - {w}| == |m| - 1
  {
    assert (m - {w}).Keys == m.Keys - {w};
    assert |m.Keys - {w}| == |m.Keys| - 1;
  }

  lemma StepNonIncreasing(items: seq<(string, nat)>, w: string, c: nat)
    requires NonIncreasing(items) && forall i :: 0 <= i < |items| ==> c <= items[i].1
    ensures NonIncreasing(items + [(w, c)])
  {
    var items' := items + [(w, c)];
    forall i, j | 0 <= i < j < |items'| ensures items'[i].1 >= items'[j].1 {
      assert items'[i] == items[i];
      if j < |items| {
        assert items'[j] == items[j];
      }
    }
  }

  lemma StepEntries(freq: map<string, nat>, items: seq<(string, nat)>, rest: map<string, nat>, w: string)
    requires rest.Keys <= freq.Keys && (forall v :: v in rest ==> rest[v] == freq[v]) && w in rest
    requires forall i :: 0 <= i < |items| ==> items[i].0 in freq && items[i].0 !in rest && freq[items[i].0] == items[i].1
    ensures forall i :: 0 <= i < |items| + 1 ==>
      var e := (items + [(w, rest[w])])[i]; e.0 in freq && e.0 !in rest - {w} && freq[e.0] == e.1
    ensures forall i, j :: 0 <= i < |items| && j == |items| ==> items[i].0 != (items + [(w, rest[w])])[j].0
  {
    var items' := items + [(w, rest[w])];
    forall i | 0 <= i < |items'|
      ensures items'[i].0 in freq && items'[i].0 !in rest - {w} && freq[items'[i].0] == items'[i].1
    {
      if i < |items| {
        assert items'[i] == items[i];
      }
    }
  }

  lemma StepBounded(items: seq<(string, nat)>, rest: map<string, nat>, w: string)
    requires w in rest && forall v :: v in rest ==> rest[v] <= rest[w]
    requires forall v :: v in rest ==> forall i :: 0 <= i < |items| ==> rest[v] <= items[i].1
    ensures forall v :: v in rest - {w} ==> forall i :: 0 <= i < |items| + 1 ==> (rest - {w})[v] <= (items + [(w, rest[w])])[i].1
  {
    var items' := items + [(w, rest[w])];
    forall v, i | v in rest - {w} && 0 <= i < |items'| ensures (rest - {w})[v] <= items'[i].1 {
      if i < |items| {
        assert items'[i] == items[i];
      }
    }
  }

  lemma SelectionDone(freq: map<string, nat>, items: seq<(string, nat)>, rest: map<string, nat>)
    requires Selection(freq, items, rest)
    ensures NonIncreasing(items)
    ensures forall i :: 0 <= i < |items| ==> items[i].0 in freq && freq[items[i].0] == items[i].1
    ensures forall i, j :: 0 <= i < j < |items| ==> items[i].0 != items[j].0
    ensures forall w :: w in freq && (forall i :: 0 <= i < |items| ==> items[i].0 != w) ==>
      forall i :: 0 <= i < |items| ==> freq[w] <= items[i].1
  {
    forall w | w in freq && (forall i :: 0 <= i < |items| ==> items[i].0 != w)
      ensures forall i :: 0 <= i < |items| ==> freq[w] <= items[i].1
    {
      assert w !in WordsOf(items);
    }
  }

  /**
   * `Object.entries(freq).sort((a, b) => b[1] - a[1]).slice(0, 30)`: the 30
   * largest entries in non-increasing order.  Among equal values the source's
   * order is that of the engine's key order, which is not modelled: any order
   * of ties satisfies this contract.
   */
  method TopWords(freq: map<string, nat>) returns (items: seq<(string, nat)>)
    ensures |items| == if |freq| < CLOUD_SIZE then |freq| else CLOUD_SIZE
    ensures NonIncreasing(items)
    ensures forall i :: 0 <= i < |items| ==> items[i].0 in freq && freq[items[i].0] == items[i].1
    ensures forall i, j :: 0 <= i < j < |items| ==> items[i].0 != items[j].0
    ensures forall w :: w in freq && (forall i :: 0 <= i < |items| ==> items[i].0 != w) ==>
      forall i :: 0 <= i < |items| ==> freq[w] <= items[i].1
  {
    var rest;
    items, rest := SelectLargest(freq);
    SelectionDone(freq, items, rest);
  }

  /** The selection loop: picks the largest remaining entry until 30 are picked or none is left. */
  method SelectLargest(freq: map<string, nat>) returns (items: seq<(string, nat)>, rest: map<string, nat>)
    ensures Selection(freq, items, rest)
    ensures |items| == if |freq| < CLOUD_SIZE then |freq| else CLOUD_SIZE
  {
    rest := freq;
    items := [];
    while |items| < CLOUD_SIZE && |rest| > 0
      invariant Selection(freq, items, rest)
      invariant |items| + |rest| == |freq| && |items| <= CLOUD_SIZE
      decreases |rest|
    {
      var w := MaxKey(rest);
      SelectionStep(freq, items, rest, w);
      RemoveKeyCard(rest, w);
      items := items + [(w, rest[w])];
      rest := rest - {w};
    }
  }

  /** The distinct retained words of the journal's tokens. */
  function RetainedWords(tokens: seq<string>): set<string>
  {
    set w | w in tokens && Retained(w)
  }

  /**
   * The word cloud: frequencies of the retained tokens, largest first, the
   * thirty most frequent distinct words (all of them when there are fewer).
   */
  method WordCloud(tokens: seq<string>) returns (items: seq<(string, nat)>)
    ensures |items| == if |RetainedWords(tokens)| < CLOUD_SIZE then |RetainedWords(tokens)| else CLOUD_SIZE
    ensures NonIncreasing(items)
    ensures forall i :: 0 <= i < |items| ==> Retained(items[i].0) && items[i].1 == Occurrences(tokens, items[i].0)
    ensures forall i :: 0 <= i < |items| ==> items[i].0 in tokens
    ensures forall i, j :: 0 <= i < j < |items| ==> items[i].0 != items[j].0
    ensures forall w :: w in tokens && Retained(w) && (forall i :: 0 <= i < |items| ==> items[i].0 != w) ==>
      forall i :: 0 <= i < |items| ==> Occurrences(tokens, w) <= items[i].1
  {
    var freq := WordFrequencies(tokens);
    assert freq.Keys == RetainedWords(tokens);
    items := TopWords(freq);
  }
}
