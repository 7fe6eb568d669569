/** The chat widget: a transcript, an input buffer and a single-flight "awaiting reply" flag.
    A send is split into its two halves: the synchronous part up to the gateway call (Send) and
    the part that runs when the call resolves (Reply). */
module Chat {
  import opened Wrappers
  import opened Gateway

  datatype Role = User | Model

  datatype ChatMessage = ChatMessage(role: Role, text: string)

  datatype ChatState = ChatState(messages: seq<ChatMessage>, input: string, loading: bool)

  const Greeting: ChatMessage :=
    ChatMessage(Model, "Diagnostic active. How can I assist with your thermal systems today?")

  /** The widget opens with the greeting alone, an empty input and no request outstanding. */
  const Initial: ChatState := ChatState([Greeting], "", false)

  // ---------------------------------------------------------------------------------------
  // Trimming

  /** The characters `String.prototype.trim` strips: ECMAScript WhiteSpace and LineTerminator. */
  predicate IsWhitespace(c: char)
  {
    c == '\t' || c == '\n' || c == '\U{000B}' || c == '\U{000C}' || c == '\r' || c == ' '
    || c == '\U{00A0}' || c == '\U{1680}' || ('\U{2000}' <= c <= '\U{200A}')
    || c == '\U{2028}' || c == '\U{2029}' || c == '\U{202F}' || c == '\U{205F}'
    || c == '\U{3000}' || c == '\U{FEFF}'
  }

  predicate IsBlank(s: string)
  {
    forall i :: 0 <= i < |s| ==> IsWhitespace(s[i])
  }

  /** `s` without its leading whitespace. */
  function TrimStart(s: string): (r: string)
    ensures |r| <= |s| && r == s[|s| - |r|..]
    ensures forall i :: 0 <= i < |s| - |r| ==> IsWhitespace(s[i])
    ensures r != [] ==> !IsWhitespace(r[0])
    decreases |s|
  {
    if s != [] && IsWhitespace(s[0]) then
      var r := TrimStart(s[1..]);
      assert forall i :: 1 <= i < |s| ==> s[i] == s[1..][i - 1];
      r
    else s
  }

  /** `s` without its trailing whitespace. */
  function TrimEnd(s: string): (r: string)
    ensures |r| <= |s| && r == s[..|r|]
    ensures forall i :: |r| <= i < |s| ==> IsWhitespace(s[i])
    ensures r != [] ==> !IsWhitespace(r[|r| - 1])
    decreases |s|
  {
    if s != [] && IsWhitespace(s[|s| - 1]) then
      var r := TrimEnd(s[..|s| - 1]);
      assert forall i :: 0 <= i < |s| - 1 ==> s[i] == s[..|s| - 1][i];
      r
    else s
  }

  /** `String.prototype.trim`: a piece of `s` that neither starts nor ends with whitespace,
      empty exactly when `s` is all whitespace. */
  function Trim(s: string): (r: string)
    ensures |r| <= |s|
    ensures r == [] <==> IsBlank(s)
    ensures r != [] ==> !IsWhitespace(r[0]) && !IsWhitespace(r[|r| - 1])
  {
    var t := TrimStart(s);
    var u := TrimEnd(t);
    var a := |s| - |t|;
    assert u == [] <==> IsBlank(s) by {
      if u == [] {
        forall i | 0 <= i < |s| ensures IsWhitespace(s[i]) {
          if i >= a { assert s[i] == t[i - a]; }
        }
      } else {
        assert u[0] == t[0] == s[a];
      }
    }
    u
  }

  /** What `trim` removes is whitespace only: its result is the slice of `s` between a
      whitespace prefix and a whitespace suffix. */
  lemma TrimIsSlice(s: string)
    ensures var a := |s| - |TrimStart(s)|;
      a + |Trim(s)| <= |s| && Trim(s) == s[a..a + |Trim(s)|]
      && (forall i :: 0 <= i < a ==> IsWhitespace(s[i]))
      && (forall i :: a + |Trim(s)| <= i < |s| ==> IsWhitespace(s[i]))
  {
    var t := TrimStart(s);
    var a := |s| - |t|;
    SliceOfSuffix(s, a, TrimEnd(t));
  }

  /** A prefix `u` of the suffix `s[a..]`, followed there by whitespace only, is the slice
      `s[a..a + |u|]`, followed in `s` by whitespace only. */
  lemma SliceOfSuffix(s: string, a: nat, u: string)
    requires a <= |s| && |u| <= |s| - a && u == s[a..][..|u|]
    requires forall i :: |u| <= i < |s| - a ==> IsWhitespace(s[a..][i])
    ensures u == s[a..a + |u|]
    ensures forall i :: a + |u| <= i < |s| ==> IsWhitespace(s[i])
  {
    forall i | a + |u| <= i < |s| ensures IsWhitespace(s[i]) {
      assert s[i] == s[a..][i - a];
    }
  }

  // ---------------------------------------------------------------------------------------
  // Transitions

  /** The guard at the top of the send handler: a non-blank input and nothing in flight. */
  predicate Accepts(st: ChatState)
    ensures Accepts(st) <==> !IsBlank(st.input) && !st.loading
  {
    Trim(st.input) != [] && !st.loading
  }

  /** The synchronous half of a send: a rejected send changes nothing; an accepted one appends the
      untrimmed input as a user message, clears the input and raises the flag. */
  function Send(st: ChatState): (r: ChatState)
    ensures st.messages <= r.messages
    ensures |r.messages| == |st.messages| + (if Accepts(st) then 1 else 0)
    ensures Accepts(st) ==>
      r.messages[|st.messages|] == ChatMessage(User, st.input) && r.input == "" && r.loading
    ensures !Accepts(st) ==> r == st
  {
    if Accepts(st) then ChatState(st.messages + [ChatMessage(User, st.input)], "", true) else st
  }

  /** The prompt a send hands to the gateway, if it calls it at all. */
  function Prompt(st: ChatState): (r: Option<string>)
    ensures r.Some? <==> Accepts(st)
    ensures r.Some? ==> r.value == Send(st).messages[|st.messages|].text
  {
    if Accepts(st) then Some(st.input) else None
  }

  /** The asynchronous half: the gateway's string is appended as a model message and the flag
      drops. The input buffer, which the user may have edited meanwhile, is left alone. */
  function Reply(st: ChatState, reply: string): (r: ChatState)
    ensures st.messages <= r.messages && |r.messages| == |st.messages| + 1
    ensures r.messages[|st.messages|] == ChatMessage(Model, reply)
    ensures !r.loading && r.input == st.input
  {
    ChatState(st.messages + [ChatMessage(Model, reply)], st.input, false)
  }

  /** Typing replaces the input buffer, also while a request is in flight. */
  function Edit(st: ChatState, text: string): (r: ChatState)
    ensures r.input == text && r.messages == st.messages && r.loading == st.loading
  {
    st.(input := text)
  }

  // ---------------------------------------------------------------------------------------
  // The transcript invariant

  /** Position 0 is the greeting; after it, odd positions are the user's, even ones the model's. */
  function ExpectedRole(i: nat): Role
  {
    if i % 2 == 1 then User else Model
  }

  /** The shape of the state after `completed` round trips: one greeting, a user and a model
      message per completed round trip, one more user message while a reply is awaited. */
  ghost predicate Consistent(st: ChatState, completed: nat)
  {
    |st.messages| == 1 + 2 * completed + (if st.loading then 1 else 0)
    && st.messages[0] == Greeting
    && forall i :: 0 <= i < |st.messages| ==> st.messages[i].role == ExpectedRole(i)
  }

  lemma InitialConsistent()
    ensures Consistent(Initial, 0)
  {
  }

  /** A blank input or an outstanding request blocks the send: no change and no gateway call. */
  lemma RejectedSendIsNoOp(st: ChatState)
    requires IsBlank(st.input) || st.loading
    ensures Send(st) == st && Prompt(st) == None
  {
  }

  /** An accepted send appends exactly the user's untrimmed text, clears the input, raises the
      flag and hands the gateway that same text. */
  lemma AcceptedSendAppendsUserMessage(st: ChatState)
    requires !IsBlank(st.input) && !st.loading
    ensures Prompt(st) == Some(st.input)
    ensures var after := Send(st);
      after.messages == st.messages + [ChatMessage(User, Prompt(st).value)]
      && after.input == "" && after.loading
  {
  }

  /** Appending a message of the role due next keeps the alternation of roles. */
  lemma RolesAppend(msgs: seq<ChatMessage>, m: ChatMessage)
    requires forall i :: 0 <= i < |msgs| ==> msgs[i].role == ExpectedRole(i)
    requires m.role == ExpectedRole(|msgs|)
    ensures forall i :: 0 <= i < |msgs + [m]| ==> (msgs + [m])[i].role == ExpectedRole(i)
  {
    forall i | 0 <= i < |msgs + [m]| ensures (msgs + [m])[i].role == ExpectedRole(i) {
      if i < |msgs| { assert (msgs + [m])[i] == msgs[i]; }
    }
  }

  /** A send keeps the transcript's shape and only ever appends. */
  lemma SendPreserves(st: ChatState, completed: nat)
    requires Consistent(st, completed)
    ensures Consistent(Send(st), completed)
    ensures st.messages <= Send(st).messages
  {
    if Accepts(st) {
      UserEntryKeepsShape(st, completed);
      assert Send(st) == ChatState(st.messages + [ChatMessage(User, st.input)], "", true);
    }
  }

  /** With no request outstanding, appending the user's entry and raising the flag keeps the shape. */
  lemma UserEntryKeepsShape(st: ChatState, completed: nat)
    requires Consistent(st, completed) && !st.loading
    ensures Consistent(ChatState(st.messages + [ChatMessage(User, st.input)], "", true), completed)
  {
    assert |st.messages| % 2 == 1;
    RolesAppend(st.messages, ChatMessage(User, st.input));
  }

  /** Completing the outstanding request keeps the shape, counts one more round trip and only
      ever appends. */
  lemma ReplyPreserves(st: ChatState, completed: nat, reply: string)
    requires Consistent(st, completed) && st.loading
    ensures Consistent(Reply(st, reply), completed + 1)
    ensures st.messages <= Reply(st, reply).messages
  {
  }

  /** The last entry is the user's exactly while a reply is awaited. */
  lemma LastIsUserIffLoading(st: ChatState, completed: nat)
    requires Consistent(st, completed)
    ensures st.messages[|st.messages| - 1].role == User <==> st.loading
  {
  }

  /** A full round trip grows the transcript by the user's message and then the reply. */
  lemma RoundTripAppendsPair(st: ChatState, reply: string)
    requires Accepts(st)
    ensures Reply(Send(st), reply).messages
         == st.messages + [ChatMessage(User, st.input), ChatMessage(Model, reply)]
    ensures !Reply(Send(st), reply).loading
  {
  }

  /** When the service fails, the reply the user sees is the fixed fallback text. */
  lemma FailedCallShowsFallback(st: ChatState)
    requires st.loading
    ensures var m := Reply(st, Advice(Failed)).messages;
      m[|m| - 1] == ChatMessage(Model, FallbackReply)
  {
  }

  /** When the service answers, the reply the user sees is its text, unchanged. */
  lemma GeneratedCallShowsText(st: ChatState, text: string)
    ensures var m := Reply(st, Advice(Generated(text))).messages;
      m[|m| - 1] == ChatMessage(Model, text)
  {
  }

  // ---------------------------------------------------------------------------------------
  // Event traces

  /** What can happen to the widget: typing, pressing send, the outstanding call resolving. */
  datatype Event = Typed(text: string) | Pressed | Resolved(reply: string)

  /** The state after a series of events from the initial state. A resolution with nothing
      outstanding cannot happen (each call resolves once, after its own send) and is no event. */
  function Replay(events: seq<Event>): ChatState
    decreases |events|
  {
    if events == [] then Initial
    else
      var st := Replay(events[..|events| - 1]);
      match events[|events| - 1]
      case Typed(text) => Edit(st, text)
      case Pressed => Send(st)
      case Resolved(reply) => if st.loading then Reply(st, reply) else st
  }

  /** The number of round trips completed by a series of events. */
  function Completed(events: seq<Event>): nat
    decreases |events|
  {
    if events == [] then 0
    else
      var front := events[..|events| - 1];
      Completed(front)
      + (if events[|events| - 1].Resolved? && Replay(front).loading then 1 else 0)
  }

  /** Every reachable state has the transcript's shape: its length is 1 + 2 * completed, plus one
      while loading, and the roles alternate after the greeting. */
  lemma {:induction false} ReplayConsistent(events: seq<Event>)
    ensures Consistent(Replay(events), Completed(events))
    decreases |events|
  {
    if events != [] {
      var front := events[..|events| - 1];
      ReplayConsistent(front);
      var st := Replay(front);
      match events[|events| - 1]
      case Typed(text) =>
      case Pressed => SendPreserves(st, Completed(front));
      case Resolved(reply) =>
        if st.loading { ReplyPreserves(st, Completed(front), reply); }
    }
  }

  /** The transcript is append-only: every earlier transcript is a prefix of every later one. */
  lemma {:induction false} ReplayAppendOnly(events: seq<Event>, k: nat)
    requires k <= |events|
    ensures Replay(events[..k]).messages <= Replay(events).messages
    decreases |events|
  {
    if k < |events| {
      var front := events[..|events| - 1];
      assert events[..k] == front[..k];
      ReplayAppendOnly(front, k);
      ReplayConsistent(front);
      var st := Replay(front);
      match events[|events| - 1]
      case Typed(text) =>
      case Pressed => SendPreserves(st, Completed(front));
      case Resolved(reply) =>
        if st.loading { ReplyPreserves(st, Completed(front), reply); }
    } else {
      assert events[..k] == events;
    }
  }

  // ---------------------------------------------------------------------------------------
  // The widget's state, updated in place

  class ChatSession {
    var messages: seq<ChatMessage>
    var input: string
    var loading: bool
    /** The number of round trips completed so far. */
    ghost var completed: nat

    function State(): ChatState
      reads this
    {
      ChatState(messages, input, loading)
    }

    ghost predicate Valid()
      reads this
    {
      Consistent(State(), completed)
    }

    constructor ()
      ensures Valid() && State() == Initial && completed == 0
    {
      messages := [Greeting];
      input := "";
      loading := false;
      completed := 0;
    }

    /** The input field's change handler. */
    method Type(text: string)
      requires Valid()
      modifies this
      ensures Valid() && completed == old(completed)
      ensures State() == Edit(old(State()), text)
    {
      input := text;
    }

    /** The send handler up to its gateway call: returns the prompt to send, or `None` when the
        guard rejects the send, in which case nothing changed. */
    method StartSend() returns (prompt: Option<string>)
      requires Valid()
      modifies this
      ensures Valid() && completed == old(completed)
      ensures State() == Send(old(State())) && prompt == Prompt(old(State()))
      ensures prompt.Some? ==> messages == old(messages) + [ChatMessage(User, prompt.value)]
                               && input == "" && loading
      ensures prompt.None? ==> messages == old(messages) && input == old(input) && loading == old(loading)
    {
      SendPreserves(State(), completed);
      if !Accepts(State()) {
        return None;
      }
      var text := input;
      messages := messages + [ChatMessage(User, text)];
      input := "";
      loading := true;
      prompt := Some(text);
    }

    /** The send handler after its gateway call resolved with `reply`. */
    method CompleteSend(reply: string)
      requires Valid() && loading
      modifies this
      ensures Valid() && completed == old(completed) + 1
      ensures State() == Reply(old(State()), reply)
      ensures messages == old(messages) + [ChatMessage(Model, reply)] && !loading && input == old(input)
    {
      ReplyPreserves(State(), completed, reply);
      messages := messages + [ChatMessage(Model, reply)];
      loading := false;
      completed := completed + 1;
    }
  }
}
