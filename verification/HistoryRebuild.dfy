/** Rebuilding the transcript of a resumed voice interview from its stored messages
    (`frontend/src/pages/VoiceInterviewPage.tsx`, `handleResumeSession`). */
module HistoryRebuild {
  import opened Text
  import EventStream

  datatype Role = Ai | User

  datatype Entry = Entry(role: Role, text: string, messageId: int)

  datatype Stored = Stored(id: int, aiGeneratedText: Option<string>, userRecognizedText: Option<string>)

  /** `text?.trim()`, with "" for a missing text. */
  function Shown(text: Option<string>): string {
    match text
    case Some(s) => Trim(s, EventStream.JsSpace)
    case None => ""
  }

  function AiPart(m: Stored): seq<Entry> {
    if Shown(m.aiGeneratedText) == "" then [] else [Entry(Ai, Shown(m.aiGeneratedText), m.id)]
  }

  function UserPart(m: Stored): seq<Entry> {
    if Shown(m.userRecognizedText) == "" then [] else [Entry(User, Shown(m.userRecognizedText), m.id)]
  }

  /** The entries of one message: user first right after a group that ends with an AI text. */
  function Group(m: Stored, afterAi: bool): seq<Entry> {
    if afterAi then UserPart(m) + AiPart(m) else AiPart(m) + UserPart(m)
  }

  predicate EndsWithAi(group: seq<Entry>) {
    group != [] && Last(group).role == Ai
  }

  /** The group of message `i`, given all messages before it. */
  function GroupOf(history: seq<Stored>): seq<Entry>
    requires history != []
  {
    Group(Last(history), |history| > 1 && EndsWithAi(GroupOf(ButLast(history))))
  }

  function Transcript(history: seq<Stored>): seq<Entry> {
    if history == [] then [] else Transcript(ButLast(history)) + GroupOf(history)
  }

  predicate AfterAi(history: seq<Stored>) {
    history != [] && EndsWithAi(GroupOf(history))
  }

  lemma TranscriptStep(history: seq<Stored>, i: nat)
    requires i < |history|
    ensures var group := Group(history[i], AfterAi(history[..i]));
            && Transcript(history[..i + 1]) == Transcript(history[..i]) + group
            && AfterAi(history[..i + 1]) == EndsWithAi(group)
  {
    assert ButLast(history[..i + 1]) == history[..i] && Last(history[..i + 1]) == history[i];
  }

  function Pending(pendingAi: Option<Entry>): seq<Entry> {
    match pendingAi case Some(e) => [e] case None => []
  }

  /** The body of the loop: `pendingAi` is an AI text held back for the next message. */
  method AddMessage(restored: seq<Entry>, pendingAi: Option<Entry>, msg: Stored)
    returns (restored': seq<Entry>, pendingAi': Option<Entry>)
    ensures restored' + Pending(pendingAi') == restored + Pending(pendingAi) + Group(msg, pendingAi.Some?)
    ensures pendingAi'.Some? <==> EndsWithAi(Group(msg, pendingAi.Some?))
  {
    hide Shown;
    var aiText, userText := Shown(msg.aiGeneratedText), Shown(msg.userRecognizedText);
    restored', pendingAi' := restored, pendingAi;
    if pendingAi.Some? {
      restored' := restored' + [pendingAi.value];
      pendingAi' := None;
      if userText != "" {
        restored' := restored' + [Entry(User, userText, msg.id)];
      }
      if aiText != "" {
        pendingAi' := Some(Entry(Ai, aiText, msg.id));
      }
      return;
    }
    if aiText != "" && userText != "" {
      restored' := restored' + [Entry(Ai, aiText, msg.id)];
      restored' := restored' + [Entry(User, userText, msg.id)];
    } else if aiText != "" {
      pendingAi' := Some(Entry(Ai, aiText, msg.id));
    } else if userText != "" {
      restored' := restored' + [Entry(User, userText, msg.id)];
    }
  }

  method Rebuild(history: seq<Stored>) returns (restored: seq<Entry>)
    ensures restored == Transcript(history)
  {
    hide Transcript, AfterAi, Group;
    restored := [];
    var pendingAi: Option<Entry> := None;
    NothingYet();
    for i := 0 to |history|
      invariant Transcript(history[..i]) == restored + Pending(pendingAi)
      invariant pendingAi.Some? <==> AfterAi(history[..i])
    {
      TranscriptStep(history, i);
      restored, pendingAi := AddMessage(restored, pendingAi, history[i]);
    }
    assert history[..|history|] == history;
    if pendingAi.Some? {
      restored := restored + [pendingAi.value];
    }
  }

  lemma NothingYet()
    ensures Transcript([]) == [] && !AfterAi([])
  {
  }

  /** All nonblank texts, AI before user within a message. */
  function AllTexts(history: seq<Stored>): seq<Entry> {
    if history == [] then [] else AllTexts(ButLast(history)) + AiPart(Last(history)) + UserPart(Last(history))
  }

  lemma GroupTexts(m: Stored, afterAi: bool)
    ensures multiset(Group(m, afterAi)) == multiset(AiPart(m)) + multiset(UserPart(m))
  {
  }

  /** The transcript shows every nonblank text exactly once. */
  lemma {:induction false} TranscriptComplete(history: seq<Stored>)
    ensures multiset(Transcript(history)) == multiset(AllTexts(history))
  {
    if history != [] {
      TranscriptComplete(ButLast(history));
      GroupTexts(Last(history), |history| > 1 && EndsWithAi(GroupOf(ButLast(history))));
    }
  }

  // ------------------------------------------------------------- the order of the texts

  /** A text is shown without the white space around it, and nothing else is lost; a missing
      one is not shown. */
  ghost predicate ShownAs(text: Option<string>, shown: string) {
    match text
    case None => shown == ""
    case Some(s) =>
      && Trimmed(shown, EventStream.JsSpace)
      && exists left, right ::
           && s == left + shown + right
           && (forall c | c in left :: EventStream.JsSpace(c)) && (forall c | c in right :: EventStream.JsSpace(c))
  }

  lemma ShownIs(text: Option<string>)
    ensures ShownAs(text, Shown(text))
  {
    if text.Some? {
      var left, right := TrimIs(text.value, EventStream.JsSpace);
    }
  }

  /** The next message adds its texts behind all others: the AI's first, unless the message
      before it shows an AI text that ends what it shows; then the user's, as the reply. */
  lemma TranscriptIs(history: seq<Stored>, m: Stored) returns (ai: string, user: string)
    ensures ShownAs(m.aiGeneratedText, ai) && ShownAs(m.userRecognizedText, user)
    ensures var aiEntry, userEntry := Entry(Ai, ai, m.id), Entry(User, user, m.id);
            Transcript(history + [m]) == Transcript(history) +
              (if ai == "" && user == "" then []
               else if ai == "" then [userEntry]
               else if user == "" then [aiEntry]
               else if AfterAi(history) then [userEntry, aiEntry]
               else [aiEntry, userEntry])
    ensures !AfterAi([])
    ensures AfterAi(history + [m]) <==> ai != "" && (user == "" || AfterAi(history))
  {
    hide Shown, ShownAs;
    ai, user := Shown(m.aiGeneratedText), Shown(m.userRecognizedText);
    ShownIs(m.aiGeneratedText);
    ShownIs(m.userRecognizedText);
    var all := history + [m];
    assert all[..|history|] == history && all[..|all|] == all;
    TranscriptStep(all, |history|);
  }

  function OfRole(entries: seq<Entry>, role: Role): seq<Entry> {
    if entries == [] then []
    else OfRole(ButLast(entries), role) + if Last(entries).role == role then [Last(entries)] else []
  }

  lemma {:induction false} OfRoleAppend(a: seq<Entry>, b: seq<Entry>, role: Role)
    ensures OfRole(a + b, role) == OfRole(a, role) + OfRole(b, role)
    decreases |b|
  {
    if b == [] {
      assert a + b == a;
    } else {
      assert ButLast(a + b) == a + ButLast(b) && Last(a + b) == Last(b);
      OfRoleAppend(a, ButLast(b), role);
    }
  }

  /** Whatever is held back, the texts of each side come in the order they were said. */
  lemma {:induction false} SidesInOrder(history: seq<Stored>, role: Role)
    ensures OfRole(Transcript(history), role) == OfRole(AllTexts(history), role)
  {
    if history != [] {
      hide AiPart, UserPart, OfRole, Transcript, AllTexts;
      var before, m := ButLast(history), Last(history);
      SidesInOrder(before, role);
      var afterAi := LastGroup(history);
      GroupSides(m, afterAi, role);
      OfRoleAppend(Transcript(before), Group(m, afterAi), role);
      AllTextsStep(history);
      AppendTwice(AllTexts(before), AiPart(m), UserPart(m));
      OfRoleAppend(AllTexts(before), AiPart(m) + UserPart(m), role);
    } else {
      assert Transcript([]) == AllTexts([]);
    }
  }

  lemma AppendTwice(a: seq<Entry>, b: seq<Entry>, c: seq<Entry>)
    ensures a + b + c == a + (b + c)
  {
  }

  lemma LastGroup(history: seq<Stored>) returns (afterAi: bool)
    requires history != []
    ensures Transcript(history) == Transcript(ButLast(history)) + Group(Last(history), afterAi)
  {
    afterAi := |history| > 1 && EndsWithAi(GroupOf(ButLast(history)));
  }

  lemma GroupSides(m: Stored, afterAi: bool, role: Role)
    ensures OfRole(Group(m, afterAi), role) == OfRole(AiPart(m) + UserPart(m), role)
  {
    hide AiPart, UserPart, OfRole;
    OfRoleAppend(AiPart(m), UserPart(m), role);
    OfRoleAppend(UserPart(m), AiPart(m), role);
    PartsOfRole(m);
  }

  lemma AllTextsStep(history: seq<Stored>)
    requires history != []
    ensures AllTexts(history) == AllTexts(ButLast(history)) + AiPart(Last(history)) + UserPart(Last(history))
  {
  }

  lemma PartsOfRole(m: Stored)
    ensures OfRole(AiPart(m), User) == [] && OfRole(UserPart(m), Ai) == []
    ensures OfRole(AiPart(m), Ai) == AiPart(m) && OfRole(UserPart(m), User) == UserPart(m)
  {
    hide Shown;
    assert forall e: Entry :: ButLast([e]) == [];
  }
}
