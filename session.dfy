/**
 * screens/Session.tsx: the forty-minute guided chat.  The chat client is
 * reduced to whether one exists; each reply of the remote chat is a parameter,
 * `None` when the call failed.  Timestamps are milliseconds, given by the
 * caller.
 */
module GuidedSession {
  import opened Types
  import opened Text
  import opened GeminiService
  import opened UserDocument
  import opened UserContext

  /** Forty minutes, in seconds. */
  const SESSION_DURATION := 40 * 60

  const CHAT_FALLBACK := "I'm having trouble connecting right now."

  /** `mm:ss`: whole minutes and the remaining seconds, each padded to two digits. */
  function FormatTime(seconds: nat): (r: string)
    ensures |r| >= 5 && r[|r| - 3] == ':'
  {
    TwoDigits(seconds / 60) + ":" + TwoDigits(seconds % 60)
  }

  /** Below 100 minutes the clock reads `mm:ss` and reads back as the seconds it shows. */
  lemma FormatTimeReadsBack(seconds: nat)
    requires seconds < 6000
    ensures |FormatTime(seconds)| == 5 && FormatTime(seconds)[2] == ':'
    ensures AllDigits(FormatTime(seconds)[..2]) && AllDigits(FormatTime(seconds)[3..])
    ensures ParseNat(FormatTime(seconds)[..2]) * 60 + ParseNat(FormatTime(seconds)[3..]) == seconds
  {
    var m := TwoDigits(seconds / 60);
    var s := TwoDigits(seconds % 60);
    TwoDigitsRoundTrip(seconds / 60);
    TwoDigitsRoundTrip(seconds % 60);
    var r := FormatTime(seconds);
    assert r == m + ":" + s;
    assert r[..2] == m;
    assert r[3..] == s;
  }

  /** The value the timer's state updater returns for the previous remaining time. */
  function TimerStep(remaining: int): (r: int)
    ensures remaining > 1 ==> r == remaining - 1
    ensures remaining <= 1 ==> r == 0
  {
    if remaining <= 1 then 0 else remaining - 1
  }

  /** When the session began: `now` minus the elapsed seconds. */
  function StartTime(now: int, remaining: int): (t: int)
    ensures t + (SESSION_DURATION - remaining) * 1000 == now
    ensures remaining == SESSION_DURATION ==> t == now
  {
    now - (SESSION_DURATION - remaining) * 1000
  }

  /** The session record `endSession` saves. */
  function RecordOf(id: string, now: int, remaining: int, conversation: seq<Message>,
                    generate: string -> Option<string>): (s: Types.Session)
    ensures s.id == id && s.endDate == now && s.startDate == StartTime(now, remaining)
    ensures s.conversation == conversation
    ensures s.title == GetSessionSummaryAndTitle(conversation, generate).title
    ensures s.summary == GetSessionSummaryAndTitle(conversation, generate).summary
  {
    var st := GetSessionSummaryAndTitle(conversation, generate);
    Types.Session(id, StartTime(now, remaining), now, st.title, st.summary, conversation)
  }

  /** A timer that starts full leaves the duration minus the ticks, down to zero. */
  function RemainingAfter(ticks: nat): (r: int)
    ensures ticks < SESSION_DURATION ==> r == SESSION_DURATION - ticks
    ensures ticks >= SESSION_DURATION ==> r == 0
  {
    if ticks == 0 then SESSION_DURATION else TimerStep(RemainingAfter(ticks - 1))
  }

  class SessionScreen {
    var hasChat: bool
    var conversation: seq<Message>
    var input: string
    var isLoading: bool
    var sessionActive: bool
    var timeRemaining: int

    ghost predicate Valid()
      reads this
    {
      0 <= timeRemaining <= SESSION_DURATION
    }

    constructor ()
      ensures Valid() && !hasChat && conversation == [] && input == ""
      ensures !isLoading && !sessionActive && timeRemaining == SESSION_DURATION
    {
      hasChat := false;
      conversation := [];
      input := "";
      isLoading := false;
      sessionActive := false;
      timeRemaining := SESSION_DURATION;
    }

    /**
     * `startSession`: a new chat, the session active, and the model's greeting
     * as the whole conversation.  A failed greeting leaves the screen loading.
     */
    method StartSession(greeting: Option<string>)
      requires Valid()
      modifies this
      ensures Valid() && hasChat && sessionActive
      ensures input == old(input) && timeRemaining == old(timeRemaining)
      ensures greeting.Some? ==> conversation == [Message(Model, greeting.value)] && !isLoading
      ensures greeting.None? ==> conversation == old(conversation) && isLoading
    {
      hasChat := true;
      sessionActive := true;
      isLoading := true;
      if greeting.Some? {
        conversation := [Message(Model, greeting.value)];
        isLoading := false;
      }
    }

    /**
     * `endSession`: a conversation of more than one message is summarised and
     * saved; in every case the screen goes back to an idle, full timer.
     */
    method EndSession(p: UserProvider, id: string, now: int, generate: string -> Option<string>)
      requires Valid() && p.Valid()
      modifies this, p`userData
      ensures Valid() && p.Valid()
      ensures |old(conversation)| > 1 ==>
        p.userData == AddSession(old(p.userData), RecordOf(id, now, old(timeRemaining), old(conversation), generate))
      ensures |old(conversation)| <= 1 ==> p.userData == old(p.userData)
      ensures !sessionActive && conversation == [] && timeRemaining == SESSION_DURATION && !hasChat
      ensures input == old(input) && isLoading == old(isLoading)
    {
      if |conversation| > 1 {
        var st := GetSessionSummaryAndTitle(conversation, generate);
        var record := Types.Session(id, now - (SESSION_DURATION - timeRemaining) * 1000, now, st.title, st.summary, conversation);
        p.AddSession(record);
      }
      sessionActive := false;
      conversation := [];
      timeRemaining := SESSION_DURATION;
      hasChat := false;
    }

    /** The one-second interval of an active session; the last second ends it. */
    method Tick(p: UserProvider, id: string, now: int, generate: string -> Option<string>)
      requires Valid() && p.Valid() && sessionActive
      modifies this, p`userData
      ensures Valid() && p.Valid()
      ensures old(timeRemaining) > 1 ==>
        timeRemaining == TimerStep(old(timeRemaining)) && sessionActive &&
        conversation == old(conversation) && p.userData == old(p.userData)
      ensures old(timeRemaining) <= 1 ==>
        !sessionActive && conversation == [] && timeRemaining == SESSION_DURATION &&
        (|old(conversation)| > 1 ==>
          p.userData == AddSession(old(p.userData), RecordOf(id, now, old(timeRemaining), old(conversation), generate))) &&
        (|old(conversation)| <= 1 ==> p.userData == old(p.userData))
    {
      if timeRemaining <= 1 {
        EndSession(p, id, now, generate);
      } else {
        timeRemaining := timeRemaining - 1;
      }
    }

    /**
     * `handleSend`: blank input or no chat does nothing; otherwise the input
     * goes out as one user message, answered by one model message.
     */
    method HandleSend(reply: Option<string>)
      requires Valid()
      modifies this`conversation, this`input, this`isLoading
      ensures Valid()
      ensures IsBlank(old(input)) || !hasChat ==>
        conversation == old(conversation) && input == old(input) && isLoading == old(isLoading)
      ensures !IsBlank(old(input)) && hasChat ==>
        && conversation == old(conversation) + [Message(User, old(input)),
                                                Message(Model, if reply.Some? then reply.value else CHAT_FALLBACK)]
        && input == "" && !isLoading
    {
      var blank := IsBlank(input);
      if blank || !hasChat {
        return;
      }
      Exchange(if reply.Some? then reply.value else CHAT_FALLBACK);
    }

    /** The sending half of `handleSend`: the user's message goes out, the answer comes back. */
    method Exchange(answer: string)
      requires Valid()
      modifies this`conversation, this`input, this`isLoading
      ensures Valid()
      ensures conversation == old(conversation) + [Message(User, old(input)), Message(Model, answer)]
      ensures input == "" && !isLoading
    {
      var text := input;
      conversation := conversation + [Message(User, text)];
      input := "";
      isLoading := true;
      conversation := conversation + [Message(Model, answer)];
      isLoading := false;
    }
  }
}
