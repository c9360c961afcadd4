/** The web session: the four session values the page keeps between reruns,
    the screen they select, and the user's actions that change them (choosing
    a domain, submitting the details form, sending a chat message, the two
    sidebar buttons). Rendering is left out; what each action leaves in the
    session is modelled. */
module Session {
  import opened Wrappers
  import opened Text
  import opened Settings
  import opened Crews
  import opened Dispatch

  datatype Role = User | Assistant

  /** One entry of the chat history. */
  datatype Message = Message(role: Role, content: string)

  /** The session values: the chosen domain (`None` before a choice), whether
      the details form was accepted, the chat history and the customer's
      details. */
  datatype State = State(
    selectedDomain: Option<Domain>,
    userInfoCollected: bool,
    chatMessages: seq<Message>,
    userInfo: map<string, string>)

  // ---------------------------------------------------------------------
  // Start-up

  /** The session values as a rerun finds them: each may already be set. */
  datatype Stored = Stored(
    selectedDomain: Option<Option<Domain>>,
    userInfoCollected: Option<bool>,
    chatMessages: Option<seq<Message>>,
    userInfo: Option<map<string, string>>)

  /** The state of a session opened for the first time. */
  const Fresh := State(None, false, [], map[])

  /** The script's start: each value missing from the session gets its
      default, each present value is kept. */
  function InitSession(s: Stored): (st: State)
    ensures s.selectedDomain.None? ==> st.selectedDomain == None
    ensures s.userInfoCollected.None? ==> !st.userInfoCollected
    ensures s.chatMessages.None? ==> st.chatMessages == []
    ensures s.userInfo.None? ==> st.userInfo == map[]
    ensures s.selectedDomain.Some? ==> st.selectedDomain == s.selectedDomain.value
    ensures s.userInfoCollected.Some? ==> st.userInfoCollected == s.userInfoCollected.value
    ensures s.chatMessages.Some? ==> st.chatMessages == s.chatMessages.value
    ensures s.userInfo.Some? ==> st.userInfo == s.userInfo.value
  {
    State(
      s.selectedDomain.GetOr(None),
      s.userInfoCollected.GetOr(false),
      s.chatMessages.GetOr([]),
      s.userInfo.GetOr(map[]))
  }

  /** What a rerun finds after a run that left the state `st`. */
  function Saved(st: State): Stored {
    Stored(Some(st.selectedDomain), Some(st.userInfoCollected), Some(st.chatMessages), Some(st.userInfo))
  }

  /** A first visit starts fresh, and a rerun never resets a live session. */
  lemma InitKeepsSession(st: State)
    ensures InitSession(Stored(None, None, None, None)) == Fresh
    ensures InitSession(Saved(st)) == st
  {
  }

  // ---------------------------------------------------------------------
  // Screens

  /** What the main area shows. */
  datatype Screen = DomainSelection | InfoForm(domain: Domain) | Chat(domain: Domain)

  /** The navigation of the main page: domain cards until a domain is
      chosen, then the details form until it is accepted, then the chat. */
  function ScreenOf(st: State): (sc: Screen)
    ensures sc == DomainSelection <==> st.selectedDomain.None?
    ensures sc.InfoForm? <==> st.selectedDomain.Some? && !st.userInfoCollected
    ensures sc.Chat? <==> st.selectedDomain.Some? && st.userInfoCollected
    ensures !sc.DomainSelection? ==> Some(sc.domain) == st.selectedDomain
  {
    match st.selectedDomain
    case None => DomainSelection
    case Some(d) => if st.userInfoCollected then Chat(d) else InfoForm(d)
  }

  // ---------------------------------------------------------------------
  // The details form

  /** A form input: what the user typed, empty when untouched. */
  function Entered(entered: map<string, string>, field: string): string {
    if field in entered then entered[field] else ""
  }

  /** `a` keeps some of the elements of `b`, in the order of `b`. */
  predicate Subsequence(a: seq<string>, b: seq<string>)
    decreases |b|
  {
    |a| == 0 || (|b| > 0 && ((a[0] == b[0] && Subsequence(a[1..], b[1..])) || Subsequence(a, b[1..])))
  }

  /** The fields left blank (empty or only whitespace), in form order. */
  function MissingFields(fields: seq<string>, entered: map<string, string>): (m: seq<string>)
    ensures forall f :: f in m <==> f in fields && IsBlank(Entered(entered, f))
    ensures Subsequence(m, fields)
  {
    if |fields| == 0 then []
    else
      var rest := MissingFields(fields[1..], entered);
      assert forall f :: f in fields <==> f == fields[0] || f in fields[1..];
      if IsBlank(Entered(entered, fields[0])) then [fields[0]] + rest
      else rest
  }

  /** The error shown above the form. */
  function FormError(missing: seq<string>): string {
    "Please fill in all required fields: " + Join(missing, ", ")
  }

  /** Submitting the form: the blank fields are reported together, or the
      typed values become the customer's details, keyed by field. */
  function SubmitDetails(d: Domain, entered: map<string, string>): (r: Result<map<string, string>>)
    ensures r.Fault? <==> exists f :: f in RequiredFields(d) && IsBlank(Entered(entered, f))
    ensures r.Fault? ==> r.error == FormError(MissingFields(RequiredFields(d), entered))
    ensures r.Ok? ==> Complete(r.value, RequiredFields(d))
    ensures r.Ok? ==> forall f :: f in r.value ==> r.value[f] == Entered(entered, f)
  {
    var missing := MissingFields(RequiredFields(d), entered);
    if |missing| > 0 then
      assert missing[0] in missing;
      Fault(FormError(missing))
    else
      Ok(map f | f in RequiredFields(d) :: Entered(entered, f))
  }

  /** Details that hold exactly the given fields, none of them blank. */
  predicate Complete(info: map<string, string>, fields: seq<string>) {
    && info.Keys == (set f | f in fields)
    && (forall f :: f in info ==> !IsBlank(info[f]))
  }

  // ---------------------------------------------------------------------
  // Actions

  datatype Event =
    | SelectDomain(domain: Domain)
    | SubmitForm(entered: map<string, string>)
    | ChatTurn(prompt: string, run: LlmRun)
    | ResetChat
    | BackToHome

  /** The assistant's reply to a prompt in the chat of domain `d`. */
  function Reply(d: Domain, prompt: string, userInfo: map<string, string>, run: LlmRun): string {
    GetAgentResponse(Label(d), prompt, userInfo, run)
  }

  /** One user action and the rerun it triggers. The domain cards, the form
      and the chat input exist only on their own screen; the two sidebar
      buttons are always shown. An empty chat input sends nothing. */
  function Step(st: State, e: Event): (r: State)
    ensures r.userInfo != st.userInfo ==> e.SubmitForm? && ScreenOf(st).InfoForm?
    ensures r.selectedDomain != st.selectedDomain ==> e.SelectDomain? || e.BackToHome?
    ensures r.chatMessages == []
      || (|st.chatMessages| <= |r.chatMessages| && r.chatMessages[..|st.chatMessages|] == st.chatMessages)
  {
    match e
    case SelectDomain(d) =>
      if ScreenOf(st).DomainSelection? then st.(selectedDomain := Some(d), userInfoCollected := false)
      else st
    case SubmitForm(entered) =>
      if ScreenOf(st).InfoForm? then
        match SubmitDetails(ScreenOf(st).domain, entered)
        case Fault(_) => st
        case Ok(info) => st.(userInfo := info, userInfoCollected := true, chatMessages := [])
      else st
    case ChatTurn(prompt, run) =>
      if ScreenOf(st).Chat? && prompt != "" then
        var reply := Reply(ScreenOf(st).domain, prompt, st.userInfo, run);
        st.(chatMessages := st.chatMessages + [Message(User, prompt), Message(Assistant, reply)])
      else st
    case ResetChat => st.(chatMessages := [])
    case BackToHome => st.(selectedDomain := None, userInfoCollected := false, chatMessages := [])
  }

  /** A sequence of actions from a state. */
  function Run(st: State, events: seq<Event>): State
    decreases |events|
  {
    if |events| == 0 then st else Run(Step(st, events[0]), events[1..])
  }

  // ---------------------------------------------------------------------
  // Invariant

  /** The history is question-answer pairs: users at even places with a
      non-empty prompt, the assistant at odd places. */
  predicate Alternating(ms: seq<Message>) {
    && |ms| % 2 == 0
    && (forall i :: 0 <= i < |ms| ==> (ms[i].role == User <==> i % 2 == 0))
    && (forall i :: 0 <= i < |ms| && ms[i].role == User ==> ms[i].content != "")
  }

  /** What every reachable session satisfies: details are accepted only for
      a chosen domain and then hold exactly its fields, filled in; there is
      no history without a domain; the history alternates. */
  predicate Inv(st: State) {
    && (st.userInfoCollected ==> st.selectedDomain.Some?)
    && (st.userInfoCollected ==> Complete(st.userInfo, RequiredFields(st.selectedDomain.value)))
    && (st.selectedDomain.None? ==> st.chatMessages == [])
    && Alternating(st.chatMessages)
  }

  lemma FreshInv()
    ensures Inv(Fresh)
  {
  }

  /** Appending one exchange keeps the history alternating. */
  lemma AppendExchange(ms: seq<Message>, prompt: string, reply: string)
    requires Alternating(ms) && prompt != ""
    ensures Alternating(ms + [Message(User, prompt), Message(Assistant, reply)])
  {
    var ns := ms + [Message(User, prompt), Message(Assistant, reply)];
    assert ns[|ms|].role == User && ns[|ms| + 1].role == Assistant;
    assert forall i :: 0 <= i < |ms| ==> ns[i] == ms[i];
  }

  lemma StepPreservesInv(st: State, e: Event)
    requires Inv(st)
    ensures Inv(Step(st, e))
  {
    if e.ChatTurn? && ScreenOf(st).Chat? && e.prompt != "" {
      AppendExchange(st.chatMessages, e.prompt, Reply(ScreenOf(st).domain, e.prompt, st.userInfo, e.run));
    }
  }

  /** Every session reached by actions from a fresh one keeps the invariant. */
  lemma {:induction false} RunPreservesInv(st: State, events: seq<Event>)
    requires Inv(st)
    ensures Inv(Run(st, events))
    decreases |events|
  {
    if |events| > 0 {
      StepPreservesInv(st, events[0]);
      RunPreservesInv(Step(st, events[0]), events[1..]);
    }
  }

  // ---------------------------------------------------------------------
  // What each action does

  /** Choosing a domain opens its details form and keeps any details from an
      earlier customer. The history is not touched, and in a reachable
      session it is already empty there (`DomainChoiceStartsEmpty`). */
  lemma SelectOpensForm(st: State, d: Domain)
    requires ScreenOf(st).DomainSelection?
    ensures ScreenOf(Step(st, SelectDomain(d))) == InfoForm(d)
    ensures Step(st, SelectDomain(d)).userInfo == st.userInfo
    ensures Step(st, SelectDomain(d)).chatMessages == st.chatMessages
  {
  }

  /** A domain is chosen only on the cards, which a session reaches fresh or
      through Back to Home: every domain choice starts with an empty history. */
  lemma DomainChoiceStartsEmpty(events: seq<Event>, d: Domain)
    requires ScreenOf(Run(Fresh, events)).DomainSelection?
    ensures Step(Run(Fresh, events), SelectDomain(d)).chatMessages == []
  {
    FreshInv();
    RunPreservesInv(Fresh, events);
  }

  /** A form with a blank field changes nothing. */
  lemma SubmitMissingKeepsState(st: State, entered: map<string, string>, f: string)
    requires ScreenOf(st).InfoForm?
    requires f in RequiredFields(ScreenOf(st).domain) && IsBlank(Entered(entered, f))
    ensures Step(st, SubmitForm(entered)) == st
  {
  }

  /** A form with every field filled opens an empty chat with those details. */
  lemma SubmitOpensChat(st: State, entered: map<string, string>)
    requires ScreenOf(st).InfoForm?
    requires forall f :: f in RequiredFields(ScreenOf(st).domain) ==> !IsBlank(Entered(entered, f))
    ensures var r := Step(st, SubmitForm(entered));
      && ScreenOf(r) == Chat(ScreenOf(st).domain)
      && r.chatMessages == []
      && (forall f :: f in RequiredFields(ScreenOf(st).domain) ==> f in r.userInfo && r.userInfo[f] == Entered(entered, f))
  {
  }

  /** A chat message appends the prompt and the reply of the chosen domain's
      crew, and nothing else changes. */
  lemma ChatTurnAppendsPair(st: State, prompt: string, run: LlmRun)
    requires ScreenOf(st).Chat? && prompt != ""
    ensures var r := Step(st, ChatTurn(prompt, run));
      && r.chatMessages == st.chatMessages
        + [Message(User, prompt), Message(Assistant, Reply(ScreenOf(st).domain, prompt, st.userInfo, run))]
      && r.(chatMessages := st.chatMessages) == st
  {
  }

  /** An empty chat input sends nothing, and neither does a chat input off
      the chat screen. */
  lemma NoTurnWithoutChat(st: State, prompt: string, run: LlmRun)
    requires !ScreenOf(st).Chat? || prompt == ""
    ensures Step(st, ChatTurn(prompt, run)) == st
  {
  }

  /** The chat always reaches a crew: the stored domain is a known key, so
      the invalid-domain reply never appears unless a model wrote it. */
  lemma ChatNeverInvalidDomain(d: Domain, prompt: string, userInfo: map<string, string>, run: LlmRun)
    requires forall a, t :: run.answer(a, t, userInfo) != Completed(InvalidDomain)
    ensures Reply(d, prompt, userInfo, run) != InvalidDomain
  {
    InvalidDomainIff(Label(d), prompt, userInfo, run);
  }

  /** Resetting the chat empties the history and keeps the screen and the
      details. */
  lemma ResetClearsOnlyMessages(st: State)
    ensures var r := Step(st, ResetChat);
      && r.chatMessages == []
      && ScreenOf(r) == ScreenOf(st)
      && r.userInfo == st.userInfo
  {
  }

  /** Going home shows the domain cards, empties the history, and keeps the
      previous customer's details in the session. */
  lemma BackHomeKeepsUserInfo(st: State)
    ensures var r := Step(st, BackToHome);
      && ScreenOf(r) == DomainSelection
      && r.chatMessages == []
      && r.userInfo == st.userInfo
  {
  }

  /** The chat's greeting: the customer's name, or "Customer". */
  function GreetingName(userInfo: map<string, string>): (name: string)
    ensures "name" in userInfo ==> name == userInfo["name"]
    ensures "name" !in userInfo ==> name == "Customer"
  {
    if "name" in userInfo then userInfo["name"] else "Customer"
  }

  /** In every reachable chat the greeting uses the name the customer typed. */
  lemma ChatGreetsByName(st: State)
    requires Inv(st) && ScreenOf(st).Chat?
    ensures GreetingName(st.userInfo) == st.userInfo["name"]
    ensures !IsBlank(GreetingName(st.userInfo))
  {
    assert RequiredFields(st.selectedDomain.value)[0] == "name";
  }

  /** Three actions in a row. */
  lemma RunThree(st: State, a: Event, b: Event, c: Event)
    ensures Run(st, [a, b, c]) == Step(Step(Step(st, a), b), c)
  {
    var es := [a, b, c];
    assert es[1..] == [b, c];
    assert es[1..][1..] == [c];
    assert es[1..][1..][1..] == [];
    var s1 := Step(st, a);
    var s2 := Step(s1, b);
    var s3 := Step(s2, c);
    assert Run(s3, []) == s3;
    assert Run(s2, [c]) == Run(s3, []);
    assert Run(s1, [b, c]) == Run(s2, [c]);
    assert Run(st, es) == Run(s1, [b, c]);
  }

  /** From a fresh session: choose a domain, fill the form, ask once. */
  lemma FirstExchange(d: Domain, entered: map<string, string>, prompt: string, run: LlmRun)
    requires forall f :: f in RequiredFields(d) ==> !IsBlank(Entered(entered, f))
    requires prompt != ""
    ensures var r := Run(Fresh, [SelectDomain(d), SubmitForm(entered), ChatTurn(prompt, run)]);
      && ScreenOf(r) == Chat(d)
      && |r.chatMessages| == 2
      && r.chatMessages[0] == Message(User, prompt)
      && r.chatMessages[1] == Message(Assistant, Reply(d, prompt, r.userInfo, run))
  {
    var s1 := Step(Fresh, SelectDomain(d));
    SelectOpensForm(Fresh, d);
    var s2 := Step(s1, SubmitForm(entered));
    SubmitOpensChat(s1, entered);
    var s3 := Step(s2, ChatTurn(prompt, run));
    ChatTurnAppendsPair(s2, prompt, run);
    RunThree(Fresh, SelectDomain(d), SubmitForm(entered), ChatTurn(prompt, run));
  }
}
