/**
  The application assistant (`components/ApplicationAssistant.tsx`): a
  step-by-step guide for two schemes with a progress bar, step selection
  that may only move backwards, and a keyword-driven chat bot whose reply
  arrives after a delay (here a separate transition).
 */
module Assistant {
  import opened Optional
  import opened Text

  /** One step of an application; the displayed status is static data. */
  datatype Step = Step(id: int, title: string, documents: seq<string>)

  datatype Flow = Flow(name: string, steps: seq<Step>)

  /** The two choices of the scheme selector. */
  datatype SchemeKey = PmKisan | FasalBima

  const PmKisanFlow := Flow("PM-KISAN Samman Nidhi", [
    Step(1, "Personal Information", ["Aadhaar Card", "Pan Card"]),
    Step(2, "Land Details", ["Land Records", "Khasra Number", "Survey Settlement"]),
    Step(3, "Bank Details", ["Bank Passbook", "Cancelled Cheque"]),
    Step(4, "Document Upload", ["All Previous Documents"]),
    Step(5, "Review & Submit", [])])

  const FasalBimaFlow := Flow("Pradhan Mantri Fasal Bima Yojana", [
    Step(1, "Farmer Registration", ["Farmer ID", "Aadhaar Card"]),
    Step(2, "Crop Information", ["Sowing Certificate", "Land Records"]),
    Step(3, "Insurance Premium", ["Payment Receipt"]),
    Step(4, "Policy Document", [])])

  function FlowOf(k: SchemeKey): Flow
  {
    match k
    case PmKisan => PmKisanFlow
    case FasalBima => FasalBimaFlow
  }

  /** Each step's id is its position counted from 1. */
  predicate IdsArePositions(steps: seq<Step>)
  {
    forall i :: 0 <= i < |steps| ==> steps[i].id == i + 1
  }

  /** Both flows number their steps 1, 2, … in order, and neither is empty. */
  lemma FlowsNumbered(k: SchemeKey)
    ensures IdsArePositions(FlowOf(k).steps) && |FlowOf(k).steps| >= 1
  {
  }

  /** The bot's canned answers. */
  datatype Reply = DocumentHelp | BankHelp | LandHelp | StatusHelp | GeneralHelp

  datatype ChatMessage = FromUser(text: string) | Greeting | FromBot(reply: Reply)

  datatype State = State(
    selected: SchemeKey,
    currentStep: int,
    chat: seq<ChatMessage>,
    userMessage: string)

  const Initial := State(PmKisan, 1, [Greeting], "")

  /** `(currentStep / steps.length) * 100`. */
  function Progress(s: State): (p: real)
    ensures s.currentStep >= 1 ==> p > 0.0
    ensures s.currentStep <= |FlowOf(s.selected).steps| ==> p <= 100.0
    ensures p == 100.0 <==> s.currentStep == |FlowOf(s.selected).steps|
  {
    var n := |FlowOf(s.selected).steps|;
    FlowsNumbered(s.selected);
    s.currentStep as real / n as real * 100.0
  }

  /** At the start the bar shows one step of five done. */
  lemma InitialProgress()
    ensures Progress(Initial) == 20.0
    ensures Progress(Initial.(selected := FasalBima)) == 25.0
  {
  }

  /** `handleStepClick(stepId)`: only a step at or before the current one is
      selected. */
  function StepClick(s: State, stepId: int): (r: State)
    ensures r.currentStep <= s.currentStep
    ensures r.currentStep == (if stepId <= s.currentStep then stepId else s.currentStep)
    ensures r.(currentStep := s.currentStep) == s
  {
    if stepId <= s.currentStep then s.(currentStep := stepId) else s
  }

  /** A sequence of clicks. */
  function Clicks(s: State, ids: seq<int>): State
    decreases |ids|
  {
    if ids == [] then s else Clicks(StepClick(s, ids[0]), ids[1..])
  }

  /** No sequence of clicks moves the current step forward, and a sequence
      whose every id is at least the current step leaves it unchanged. */
  lemma {:induction false} ClicksNeverAdvance(s: State, ids: seq<int>)
    ensures Clicks(s, ids).currentStep <= s.currentStep
    ensures (forall i :: 0 <= i < |ids| ==> ids[i] >= s.currentStep) ==> Clicks(s, ids).currentStep == s.currentStep
    decreases |ids|
  {
    if ids != [] {
      ClicksNeverAdvance(StepClick(s, ids[0]), ids[1..]);
    }
  }

  /** Starting at step 1 and clicking only on displayed steps (ids from 1),
      the assistant stays at step 1 forever. */
  lemma StuckAtFirstStep(ids: seq<int>)
    requires forall i :: 0 <= i < |ids| ==> ids[i] >= 1
    ensures Clicks(Initial, ids).currentStep == 1
  {
    ClicksNeverAdvance(Initial, ids);
  }

  /** The keyword pairs of the four topics, looked for in the lower-cased message. */
  predicate AboutDocuments(m: string) { Includes(m, "document") || Includes(m, "upload") }

  predicate AboutBank(m: string) { Includes(m, "bank") || Includes(m, "account") }

  predicate AboutLand(m: string) { Includes(m, "land") || Includes(m, "khasra") }

  predicate AboutStatus(m: string) { Includes(m, "status") || Includes(m, "track") }

  /** `generateBotResponse`: the first topic whose keywords occur in the
      lower-cased message decides the answer. */
  function BotReply(message: string): (r: Reply)
    ensures var m := Lower(message);
      && (r == DocumentHelp <==> AboutDocuments(m))
      && (r == BankHelp <==> !AboutDocuments(m) && AboutBank(m))
      && (r == LandHelp <==> !AboutDocuments(m) && !AboutBank(m) && AboutLand(m))
      && (r == StatusHelp <==> !AboutDocuments(m) && !AboutBank(m) && !AboutLand(m) && AboutStatus(m))
      && (r == GeneralHelp <==> !AboutDocuments(m) && !AboutBank(m) && !AboutLand(m) && !AboutStatus(m))
  {
    var m := Lower(message);
    if AboutDocuments(m) then DocumentHelp
    else if AboutBank(m) then BankHelp
    else if AboutLand(m) then LandHelp
    else if AboutStatus(m) then StatusHelp
    else GeneralHelp
  }

  /** The answer ignores letter case. */
  lemma BotReplyIgnoresCase(message: string)
    ensures BotReply(Upper(message)) == BotReply(message)
    ensures BotReply(Lower(message)) == BotReply(message)
  {
    LowerOfUpper(message);
    LowerIdempotent(message);
  }

  /** A message opening with "Upload" gets the document answer whatever
      follows, even when it also asks about a bank account. */
  lemma UploadWinsOverBank(rest: string)
    ensures BotReply("Upload " + rest) == DocumentHelp
  {
    var s := "Upload " + rest;
    var m := Lower(s);
    assert m[..6] == "upload" by {
      forall i | 0 <= i < 6
        ensures m[i] == "upload"[i]
      {
        assert s[i] == "Upload "[i];
      }
    }
    assert StartsWith(m, "upload");
  }

  /** `handleSendMessage`: a blank draft changes nothing; otherwise the draft
      is appended as a user message, the input is cleared, and the reply the
      bot will post is returned. */
  function SendMessage(s: State): (r: (State, Option<Reply>))
    ensures IsBlank(s.userMessage) ==> r == (s, None)
    ensures !IsBlank(s.userMessage) ==>
      && r.0.chat == s.chat + [FromUser(s.userMessage)]
      && r.0.userMessage == ""
      && r.0.currentStep == s.currentStep && r.0.selected == s.selected
      && r.1 == Some(BotReply(s.userMessage))
  {
    if IsBlank(s.userMessage) then (s, None)
    else (s.(chat := s.chat + [FromUser(s.userMessage)], userMessage := ""), Some(BotReply(s.userMessage)))
  }

  /** The delayed reply is appended to the chat as it stands when it arrives. */
  function DeliverReply(s: State, reply: Reply): (r: State)
    ensures r.chat == s.chat + [FromBot(reply)]
    ensures r.(chat := s.chat) == s
  {
    s.(chat := s.chat + [FromBot(reply)])
  }

  /** Sending and then receiving the answer adds exactly the question and
      its answer, in that order, and keeps the earlier conversation. */
  lemma SendThenDeliver(s: State)
    requires !IsBlank(s.userMessage)
    ensures var (t, pending) := SendMessage(s);
      pending.Some? &&
      DeliverReply(t, pending.value).chat == s.chat + [FromUser(s.userMessage), FromBot(BotReply(s.userMessage))]
  {
    var (t, pending) := SendMessage(s);
    assert s.chat + [FromUser(s.userMessage)] + [FromBot(BotReply(s.userMessage))]
      == s.chat + [FromUser(s.userMessage), FromBot(BotReply(s.userMessage))];
  }
}
