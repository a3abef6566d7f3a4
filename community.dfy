/**
 * screens/Community.tsx: the support-circle posts and their reaction counters,
 * the shared intentions with their energy counters and ripples, and the
 * countdown to the daily ritual at 18:00 UTC.  Clock readings are parameters:
 * `now` in milliseconds since the epoch, ids as the strings the clock yields.
 */
module Community {
  import opened Types
  import opened Text

  /** The four reaction buttons: hug, folded hands, heart, star. */
  datatype Reaction = Hug | Pray | Heart | Star

  /** The reaction counters of a post, one per button. */
  datatype Counts = Counts(hug: int, pray: int, heart: int, star: int)
  {
    function Get(q: Reaction): int
    {
      match q
      case Hug => hug
      case Pray => pray
      case Heart => heart
      case Star => star
    }

    /** `{ ...reactions, [q]: reactions[q] + 1 }`. */
    function Inc(q: Reaction): (r: Counts)
      ensures r.Get(q) == Get(q) + 1
      ensures forall other :: other != q ==> r.Get(other) == Get(other)
    {
      match q
      case Hug => this.(hug := hug + 1)
      case Pray => this.(pray := pray + 1)
      case Heart => this.(heart := heart + 1)
      case Star => this.(star := star + 1)
    }
  }

  datatype Post = Post(id: string, author: string, content: string, reactions: Counts)

  datatype Intention = Intention(id: string, text: string, author: string, energy: int)

  const ZERO_REACTIONS := Counts(0, 0, 0, 0)

  const INITIAL_POSTS: seq<Post> := [
    Post("1", "A fellow traveler", "Feeling a bit overwhelmed today, but reminding myself that this feeling will pass. Sending strength to anyone who needs it.",
         Counts(5, 3, 7, 2)),
    Post("2", "A quiet observer", "Took a walk in nature this morning and it really helped clear my head. It's the small things.",
         Counts(8, 2, 12, 4))
  ]

  const INITIAL_INTENTIONS: seq<Intention> := [
    Intention("1", "To be kind to myself today.", "anonymous", 15),
    Intention("2", "To find a moment of quiet.", "anonymous", 22)
  ]

  const RITUAL_WINDOW := 5 * 60 * 1000
  const DAY_MS := 24 * 60 * 60 * 1000
  const SUNSET_MS := 18 * 60 * 60 * 1000

  /** `handleReaction`: one more of `reaction` on the post with that id. */
  function ReactTo(posts: seq<Post>, postId: string, reaction: Reaction): (r: seq<Post>)
    ensures |r| == |posts|
    ensures forall i :: 0 <= i < |posts| && posts[i].id != postId ==> r[i] == posts[i]
    ensures forall i :: 0 <= i < |posts| && posts[i].id == postId ==>
      r[i].id == posts[i].id && r[i].author == posts[i].author && r[i].content == posts[i].content &&
      r[i].reactions.Get(reaction) == posts[i].reactions.Get(reaction) + 1 &&
      forall q :: q != reaction ==> r[i].reactions.Get(q) == posts[i].reactions.Get(q)
  {
    if |posts| == 0 then []
    else
      var p := posts[0];
      var head := if p.id == postId then p.(reactions := p.reactions.Inc(reaction)) else p;
      [head] + ReactTo(posts[1..], postId, reaction)
  }

  /** The sum of one reaction over all posts. */
  function TotalOf(posts: seq<Post>, reaction: Reaction): int
  {
    if |posts| == 0 then 0 else posts[0].reactions.Get(reaction) + TotalOf(posts[1..], reaction)
  }

  /** Posts with that id. */
  function CountId(posts: seq<Post>, id: string): nat
  {
    if |posts| == 0 then 0 else (if posts[0].id == id then 1 else 0) + CountId(posts[1..], id)
  }

  /**
   * A reaction raises the total of that reaction by the number of posts with the
   * id (one, for unique ids) and leaves the totals of the other reactions alone.
   */
  lemma {:induction false} ReactionTotals(posts: seq<Post>, postId: string, reaction: Reaction, q: Reaction)
    ensures TotalOf(ReactTo(posts, postId, reaction), q) ==
      TotalOf(posts, q) + (if q == reaction then CountId(posts, postId) else 0)
    decreases |posts|
  {
    if |posts| > 0 {
      ReactionTotals(posts[1..], postId, reaction, q);
      assert ReactTo(posts, postId, reaction)[1..] == ReactTo(posts[1..], postId, reaction);
    }
  }

  /** `handleAddEnergy`'s map: one more energy on the intention with that id. */
  function AddEnergy(intentions: seq<Intention>, id: string): (r: seq<Intention>)
    ensures |r| == |intentions|
    ensures forall i :: 0 <= i < |intentions| && intentions[i].id != id ==> r[i] == intentions[i]
    ensures forall i :: 0 <= i < |intentions| && intentions[i].id == id ==>
      r[i] == intentions[i].(energy := intentions[i].energy + 1)
  {
    if |intentions| == 0 then []
    else
      var x := intentions[0];
      [if x.id == id then x.(energy := x.energy + 1) else x] + AddEnergy(intentions[1..], id)
  }

  /** `${intentionId}-${Date.now()}`. */
  function RippleId(intentionId: string, now: nat): (r: string)
    ensures intentionId <= r && |r| > |intentionId| && r[|intentionId|] == '-'
  {
    intentionId + "-" + NatToString(now)
  }

  /** The ripples drawn on an intention's button: those whose id starts with the intention's id. */
  function RipplesOf(ripples: seq<string>, intentionId: string): (r: seq<string>)
    ensures forall x :: x in r <==> x in ripples && intentionId <= x
  {
    if |ripples| == 0 then []
    else (if intentionId <= ripples[0] then [ripples[0]] else []) + RipplesOf(ripples[1..], intentionId)
  }

  /** `current.filter(id => id !== r)`. */
  function RemoveRipple(ripples: seq<string>, gone: string): (r: seq<string>)
    ensures gone !in r
    ensures forall x :: x != gone ==> (x in r <==> x in ripples)
    ensures |r| <= |ripples|
    ensures gone !in ripples ==> r == ripples
    ensures multiset(r) == multiset(ripples)[gone := 0]
  {
    if |ripples| == 0 then []
    else
      assert ripples == [ripples[0]] + ripples[1..];
      (if ripples[0] == gone then [] else [ripples[0]]) + RemoveRipple(ripples[1..], gone)
  }

  /** A new ripple is drawn on the intention that created it. */
  lemma NewRippleShown(ripples: seq<string>, intentionId: string, now: nat)
    ensures RippleId(intentionId, now) in RipplesOf(ripples + [RippleId(intentionId, now)], intentionId)
  {
  }

  /** The filter keeps the order of the ripples: it distributes over concatenation. */
  lemma {:induction false} RemoveRippleAppend(a: seq<string>, b: seq<string>, gone: string)
    ensures RemoveRipple(a + b, gone) == RemoveRipple(a, gone) + RemoveRipple(b, gone)
  {
    if |a| > 0 {
      assert (a + b)[0] == a[0];
      assert (a + b)[1..] == a[1..] + b;
      RemoveRippleAppend(a[1..], b, gone);
    } else {
      assert a + b == b;
    }
  }

  // -------------------------------------------------------------- ritual clock

  /** Milliseconds from `now` to the next 18:00 UTC (zero at 18:00 exactly). */
  function DiffToSunset(now: nat): (d: int)
    ensures 0 <= d < DAY_MS
    ensures (now + d) % DAY_MS == SUNSET_MS
  {
    var sunset := now - now % DAY_MS + SUNSET_MS;
    if now > sunset then sunset + DAY_MS - now else sunset - now
  }

  /** The ritual is on during the five minutes before sunset. */
  predicate RitualActive(diff: int)
  {
    diff < RITUAL_WINDOW && diff > 0
  }

  /** Hours, minutes and seconds of a non-negative millisecond difference, each floored. */
  function Countdown(diff: nat): (r: (nat, nat, nat))
    ensures r.1 < 60 && r.2 < 60
    ensures r.0 * 3600000 + r.1 * 60000 + r.2 * 1000 <= diff < r.0 * 3600000 + r.1 * 60000 + r.2 * 1000 + 1000
  {
    CountdownParts(diff);
    (diff / 3600000, (diff / 60000) % 60, (diff / 1000) % 60)
  }

  /** A positive multiple of `n` is at least `n`. */
  lemma MulAtLeast(n: int, d: int)
    requires n > 0 && d >= 1
    ensures n * d >= n
    decreases d
  {
    if d > 1 {
      MulAtLeast(n, d - 1);
      assert n * d == n * (d - 1) + n;
    }
  }

  /** The only multiple of `n` strictly between `-n` and `n` is zero. */
  lemma MulBetween(n: int, d: int)
    requires n > 0
    ensures n * d < n ==> d <= 0
    ensures n * d > -n ==> d >= 0
  {
    if d >= 1 {
      MulAtLeast(n, d);
    }
    if d <= -1 {
      MulAtLeast(n, -d);
      assert n * -d == -(n * d);
    }
  }

  /** Floored division is determined by quotient and remainder. */
  lemma DivUnique(x: int, n: int, k: int, t: int)
    requires n > 0 && x == n * k + t && 0 <= t < n
    ensures x / n == k
  {
    var q, r := x / n, x % n;
    assert x == n * q + r;
    assert n * (q - k) == n * q - n * k;
    MulBetween(n, q - k);
  }

  lemma CountdownParts(diff: nat)
    ensures var h, m, s := diff / 3600000, (diff / 60000) % 60, (diff / 1000) % 60;
      h * 3600000 + m * 60000 + s * 1000 <= diff < h * 3600000 + m * 60000 + s * 1000 + 1000
  {
    var q1, r1 := diff / 1000, diff % 1000;
    var q2, r2 := q1 / 60, q1 % 60;
    var q3, r3 := q2 / 60, q2 % 60;
    assert diff == 1000 * q1 + r1;
    assert q1 == 60 * q2 + r2;
    assert q2 == 60 * q3 + r3;
    DivUnique(diff, 60000, q2, 1000 * r2 + r1);
    DivUnique(diff, 3600000, q3, 60000 * r3 + 1000 * r2 + r1);
  }

  /** `${h}:${m}:${s}`, each padded to two digits. */
  function CountdownText(diff: nat): string
  {
    var (h, m, s) := Countdown(diff);
    TwoDigits(h) + ":" + TwoDigits(m) + ":" + TwoDigits(s)
  }

  /**
   * Within a day the countdown text is `hh:mm:ss`, and its three fields read
   * back as whole hours, minutes and seconds of the difference.
   */
  lemma {:induction false} CountdownReadsBack(diff: nat)
    requires diff < DAY_MS
    ensures var t := CountdownText(diff);
      var (h, m, s) := Countdown(diff);
      |t| == 8 && t[2] == ':' && t[5] == ':' &&
      ParseNat(t[0..2]) == h && ParseNat(t[3..5]) == m && ParseNat(t[6..8]) == s &&
      h < 24
  {
    var (h, m, s) := Countdown(diff);
    assert h < 24;
    TwoDigitsRoundTrip(h);
    TwoDigitsRoundTrip(m);
    TwoDigitsRoundTrip(s);
    var t := CountdownText(diff);
    assert t == TwoDigits(h) + ":" + TwoDigits(m) + ":" + TwoDigits(s);
    assert t[0..2] == TwoDigits(h);
    assert t[3..5] == TwoDigits(m);
    assert t[6..8] == TwoDigits(s);
  }

  class CommunityScreen {
    var posts: seq<Post>
    var newPost: string
    var isPosting: bool
    var intentions: seq<Intention>
    var newIntention: string
    var ripples: seq<string>
    var timeToSunset: string
    var isRitualActive: bool
    var participants: int

    constructor ()
      ensures posts == INITIAL_POSTS && intentions == INITIAL_INTENTIONS
      ensures ripples == [] && !isPosting && newPost == "" && newIntention == ""
      ensures timeToSunset == "00:00:00" && !isRitualActive && participants == 137
    {
      posts := INITIAL_POSTS;
      newPost := "";
      isPosting := false;
      intentions := INITIAL_INTENTIONS;
      newIntention := "";
      ripples := [];
      timeToSunset := "00:00:00";
      isRitualActive := false;
      participants := 137;
    }

    /**
     * The click on Share: blank text or a post in flight is ignored; otherwise
     * posting starts and the text at this moment is what the timer will post.
     */
    method BeginPost() returns (captured: Option<string>)
      modifies this`isPosting
      ensures captured.None? <==> IsBlank(newPost) || old(isPosting)
      ensures captured.None? ==> isPosting == old(isPosting)
      ensures captured.Some? ==> captured.value == newPost && isPosting
    {
      if Trim(newPost) == "" || isPosting {
        return None;
      }
      isPosting := true;
      return Some(newPost);
    }

    /** The timer callback of a post: the post by 'You' with no reactions goes first. */
    method FinishPost(id: string, content: string)
      modifies this`posts, this`newPost, this`isPosting
      ensures posts == [Post(id, "You", content, ZERO_REACTIONS)] + old(posts)
      ensures newPost == "" && !isPosting
    {
      posts := [Post(id, "You", content, ZERO_REACTIONS)] + posts;
      newPost := "";
      isPosting := false;
    }

    method HandleReaction(postId: string, reaction: Reaction)
      modifies this`posts
      ensures posts == ReactTo(old(posts), postId, reaction)
    {
      posts := ReactTo(posts, postId, reaction);
    }

    /** Adds an intention by 'You' with energy 1, unless the text is blank. */
    method HandleAddIntention(id: string)
      modifies this`intentions, this`newIntention
      ensures IsBlank(old(newIntention)) ==> intentions == old(intentions) && newIntention == old(newIntention)
      ensures !IsBlank(old(newIntention)) ==>
        intentions == [Intention(id, old(newIntention), "You", 1)] + old(intentions) && newIntention == ""
    {
      if Trim(newIntention) == "" {
        return;
      }
      intentions := [Intention(id, newIntention, "You", 1)] + intentions;
      newIntention := "";
    }

    /** One more energy on the intention, and one ripple for it. */
    method HandleAddEnergy(intentionId: string, now: nat)
      modifies this`intentions, this`ripples
      ensures intentions == AddEnergy(old(intentions), intentionId)
      ensures ripples == old(ripples) + [RippleId(intentionId, now)]
    {
      intentions := AddEnergy(intentions, intentionId);
      ripples := ripples + [RippleId(intentionId, now)];
    }

    /** The end of a ripple's animation removes that ripple. */
    method RippleEnded(r: string)
      modifies this`ripples
      ensures ripples == RemoveRipple(old(ripples), r)
    {
      ripples := RemoveRipple(ripples, r);
    }

    /** The one-second clock tick. */
    method Tick(now: nat)
      modifies this`timeToSunset, this`isRitualActive
      ensures isRitualActive == RitualActive(DiffToSunset(now))
      ensures timeToSunset == CountdownText(DiffToSunset(now))
    {
      var diff := DiffToSunset(now);
      isRitualActive := diff < RITUAL_WINDOW && diff > 0;
      timeToSunset := CountdownText(diff);
    }

    /** The two-second participant tick during the ritual; the coin stands for `Math.random() > 0.5`. */
    method StepParticipants(coin: bool)
      requires isRitualActive
      modifies this`participants
      ensures participants == old(participants) + (if coin then 1 else -1)
    {
      participants := participants + (if coin then 1 else -1);
    }
  }
}
