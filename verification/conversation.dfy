/** A session as a sequence of user actions applied to the component's state:
    typing, choosing a language, attaching a file and asking. The invariants
    proved here hold after any number of actions. */
module Conversation {
  import opened Wrappers
  import opened Text
  import opened RagChat

  /** A user action. `Picked` carries the position of the chosen selector
      entry; `Attached` carries the picked file, absent when the picker or
      the drop delivered none; `Asked` carries the replies the two requests
      of that `sendQuery` call will get. */
  datatype Event =
    | Typed(text: string)
    | Picked(choice: nat)
    | Attached(pick: Option<PdfFile>)
    | Asked(ingest: IngestReply, reply: QueryReply)

  /** The selector can only deliver one of its own entries. */
  predicate Possible(e: Event) {
    e.Picked? ==> e.choice < |Languages|
  }

  /** The state after one action; for `Asked`, also the question sent, if any. */
  function Step(s: Session, e: Event): (r: (Session, Option<string>))
    requires Possible(e)
    ensures !e.Asked? ==> r.0.messages == s.messages && r.0.loading == s.loading && r.1.None?
    ensures e.Typed? ==> r.0 == s.(query := e.text)
    ensures e.Picked? ==> r.0 == s.(language := Languages[e.choice].code)
    ensures e.Attached? && e.pick.Some? ==> r.0 == s.(file := e.pick)
    ensures e.Attached? && e.pick.None? ==> r.0 == s
    ensures e.Asked? ==>
      r == (SendQuery(s, e.ingest, e.reply).final, SendQuery(s, e.ingest, e.reply).question)
  {
    match e
    case Typed(text) => (s.(query := text), None)
    case Picked(choice) => (s.(language := Languages[choice].code), None)
    case Attached(pick) => (if pick.Some? then s.(file := pick) else s, None)
    case Asked(ingest, reply) =>
      var run := SendQuery(s, ingest, reply);
      (run.final, run.question)
  }

  /** The state after a sequence of actions, and the questions sent meanwhile, in order. */
  function Replay(s: Session, es: seq<Event>): (r: (Session, seq<string>))
    requires forall i :: 0 <= i < |es| ==> Possible(es[i])
    decreases |es|
  {
    if es == [] then (s, [])
    else
      var (t, q) := Step(s, es[0]);
      var (u, qs) := Replay(t, es[1..]);
      (u, (if q.Some? then [q.value] else []) + qs)
  }

  /** The transcript is a sequence of exchanges: a user entry followed by the bot's entry. */
  ghost predicate Paired(msgs: seq<Message>) {
    && |msgs| % 2 == 0
    && forall i :: 0 <= i < |msgs| ==> msgs[i].role == (if i % 2 == 0 then User else Bot)
  }

  /** Between actions the component is idle and its transcript is made of whole exchanges. */
  ghost predicate Idle(s: Session) {
    !s.loading && Paired(s.messages)
  }

  /** Appending one exchange keeps a transcript made of whole exchanges. */
  lemma PairedAppend(msgs: seq<Message>, u: Message, b: Message)
    requires Paired(msgs) && u.role == User && b.role == Bot
    ensures Paired(msgs + [u, b])
  {
    var m := msgs + [u, b];
    forall i | 0 <= i < |m| ensures m[i].role == (if i % 2 == 0 then User else Bot) {
      if i < |msgs| {
        assert m[i] == msgs[i];
      }
    }
  }

  /** One action keeps the component idle and its transcript whole. */
  lemma StepKeepsIdle(s: Session, e: Event)
    requires Possible(e) && Idle(s)
    ensures Idle(Step(s, e).0)
    ensures s.messages <= Step(s, e).0.messages
  {
    if e.Asked? {
      var run := SendQuery(s, e.ingest, e.reply);
      var m := run.final.messages;
      if run.atUpload.Some? {
        var n := |s.messages|;
        assert m == s.messages + [m[n], m[n + 1]] by {
          assert m[..n] == s.messages;
        }
        PairedAppend(s.messages, m[n], m[n + 1]);
      }
    }
  }

  /** Any sequence of actions keeps the component idle between actions and
      only appends to the transcript. */
  lemma {:induction false} ReplayKeepsIdle(s: Session, es: seq<Event>)
    requires forall i :: 0 <= i < |es| ==> Possible(es[i])
    requires Idle(s)
    ensures Idle(Replay(s, es).0)
    ensures s.messages <= Replay(s, es).0.messages
    decreases |es|
  {
    if es != [] {
      var t := Step(s, es[0]).0;
      StepKeepsIdle(s, es[0]);
      assert forall i :: 0 <= i < |es[1..]| ==> Possible(es[1..][i]);
      ReplayKeepsIdle(t, es[1..]);
    }
  }

  /** `q` starts with the instruction naming one of the selector's languages. */
  predicate NamesOffered(q: string) {
    exists l :: l in Languages && "Respond in " + l.code <= q
  }

  /** `q` starts with the whole instruction `Respond in <code>: ` for one of
      the selector's codes, in the format `QuestionFor` produces. */
  predicate InstructsOffered(q: string) {
    exists l :: l in Languages && "Respond in " + l.code + ": " <= q
  }

  /** The state the component starts in, as written: the selected language code is `"en"`. */
  const InitialAsWritten := Session("", [], false, "en", None)

  /** The state the component starts in, with the selector's first entry selected. */
  const Initial := Session("", [], false, Languages[0].code, None)

  /** As written, the starting language is none of the selector's codes, so
      no question sent with it names an offered language. */
  lemma InitialLanguageNotOffered()
    ensures !Offered(InitialAsWritten.language)
    ensures forall q :: !NamesOffered("Respond in en: " + q)
  {
    forall l, q | l in Languages ensures !("Respond in " + l.code <= "Respond in en: " + q) {
      assert |l.code| >= 4 && ("Respond in " + l.code)[13] == l.code[2] != ':';
      assert ("Respond in en: " + q)[13] == ':';
    }
    forall l | l in Languages ensures l.code != "en" {
      assert l.code[0] != 'e' || l.code[1] != 'n' || |l.code| != 2;
    }
  }

  /** Every question of `qs` starts with `prefix`. */
  predicate AllStartWith(qs: seq<string>, prefix: string) {
    forall j :: 0 <= j < |qs| ==> prefix <= qs[j]
  }

  /** Joining two lists of questions that each start with `prefix`. */
  lemma AllStartWithJoin(a: seq<string>, b: seq<string>, prefix: string)
    requires AllStartWith(a, prefix) && AllStartWith(b, prefix)
    ensures AllStartWith(a + b, prefix)
  {
    forall j | 0 <= j < |a + b| ensures prefix <= (a + b)[j] {
      if j >= |a| {
        assert (a + b)[j] == b[j - |a|];
      }
    }
  }

  /** While the user leaves the selector alone, the language stays what it
      was and every question sent carries it in its instruction. */
  lemma {:induction false} SelectorUntouched(s: Session, es: seq<Event>)
    requires forall i :: 0 <= i < |es| ==> Possible(es[i]) && !es[i].Picked?
    ensures Replay(s, es).0.language == s.language
    ensures AllStartWith(Replay(s, es).1, "Respond in " + s.language + ": ")
    decreases |es|
  {
    if es != [] {
      var (t, q) := Step(s, es[0]);
      var prefix := "Respond in " + s.language + ": ";
      if q.Some? {
        assert q.value == QuestionFor(s.language, Trim(s.query));
        assert prefix <= q.value;
      }
      var rest := es[1..];
      assert forall i :: 0 <= i < |rest| ==> Possible(rest[i]) && !rest[i].Picked?;
      SelectorUntouched(t, rest);
      var head := if q.Some? then [q.value] else [];
      var qs := Replay(t, rest).1;
      AllStartWithJoin(head, qs, prefix);
      assert Replay(s, es).1 == head + qs;
    }
  }

  /** No question of `qs` names an offered language. */
  predicate NoneNamesOffered(qs: seq<string>) {
    forall j :: 0 <= j < |qs| ==> !NamesOffered(qs[j])
  }

  /** Questions carrying the language `"en"` name none of the selector's languages. */
  lemma EnQuestionsNotOffered(qs: seq<string>)
    requires AllStartWith(qs, "Respond in en: ")
    ensures NoneNamesOffered(qs)
  {
    forall j | 0 <= j < |qs| ensures !NamesOffered(qs[j]) {
      assert qs[j] == "Respond in en: " + qs[j][15..];
      InitialLanguageNotOffered();
    }
  }

  /** As written, a session in which the user never touches the selector
      sends every question with the language `"en"`, which names none of the
      selector's languages. This holds from `InitialAsWritten` and from every
      state that still carries its language. */
  lemma FirstQuestionsAsWritten(s: Session, es: seq<Event>)
    requires s.language == InitialAsWritten.language
    requires forall i :: 0 <= i < |es| ==> Possible(es[i]) && !es[i].Picked?
    ensures AllStartWith(Replay(s, es).1, "Respond in en: ")
    ensures NoneNamesOffered(Replay(s, es).1)
  {
    SelectorUntouched(s, es);
    assert "Respond in " + s.language + ": " == "Respond in en: ";
    EnQuestionsNotOffered(Replay(s, es).1);
  }

  /** One action keeps the selected language offered, and a question it sends names that language. */
  lemma StepKeepsLanguageOffered(s: Session, e: Event)
    requires Possible(e) && Offered(s.language)
    ensures Offered(Step(s, e).0.language)
    ensures Step(s, e).1.Some? ==> InstructsOffered(Step(s, e).1.value)
    ensures Step(s, e).1.Some? ==> "Respond in " + s.language + ": " <= Step(s, e).1.value
  {
    if e.Picked? {
      assert Languages[e.choice] in Languages;
    }
    var q := Step(s, e).1;
    if q.Some? {
      var l :| l in Languages && l.code == s.language;
      assert q.value == QuestionFor(s.language, Trim(s.query));
      assert "Respond in " + l.code + ": " <= q.value;
    }
  }

  /** Every question of `qs` starts with the instruction for an offered language. */
  predicate AllInstructOffered(qs: seq<string>) {
    forall j :: 0 <= j < |qs| ==> InstructsOffered(qs[j])
  }

  /** Joining two lists of questions that each name offered languages. */
  lemma AllInstructOfferedJoin(a: seq<string>, b: seq<string>)
    requires AllInstructOffered(a) && AllInstructOffered(b)
    ensures AllInstructOffered(a + b)
  {
    forall j | 0 <= j < |a + b| ensures InstructsOffered((a + b)[j]) {
      if j >= |a| {
        assert (a + b)[j] == b[j - |a|];
      }
    }
  }

  /** Every language a session can be in is one the selector offers, when it starts from one. */
  lemma {:induction false} ReplayKeepsLanguageOffered(s: Session, es: seq<Event>)
    requires forall i :: 0 <= i < |es| ==> Possible(es[i])
    requires Offered(s.language)
    ensures Offered(Replay(s, es).0.language)
    decreases |es|
  {
    if es != [] {
      var t := Step(s, es[0]).0;
      StepKeepsLanguageOffered(s, es[0]);
      var rest := es[1..];
      assert forall i :: 0 <= i < |rest| ==> Possible(rest[i]);
      ReplayKeepsLanguageOffered(t, rest);
      assert Replay(s, es).0 == Replay(t, rest).0;
    }
  }

  /** Every question a session sends names an offered language, when it starts from one. */
  lemma {:induction false} ReplayQuestionsNameOffered(s: Session, es: seq<Event>)
    requires forall i :: 0 <= i < |es| ==> Possible(es[i])
    requires Offered(s.language)
    ensures AllInstructOffered(Replay(s, es).1)
    decreases |es|
  {
    if es != [] {
      var (t, q) := Step(s, es[0]);
      StepKeepsLanguageOffered(s, es[0]);
      var rest := es[1..];
      assert forall i :: 0 <= i < |rest| ==> Possible(rest[i]);
      ReplayQuestionsNameOffered(t, rest);
      var head := if q.Some? then [q.value] else [];
      var qs := Replay(t, rest).1;
      AllInstructOfferedJoin(head, qs);
      assert Replay(s, es).1 == head + qs;
    }
  }

  /** With the corrected starting state, every question of every session names an offered language. */
  lemma QuestionsUseOfferedLanguage(es: seq<Event>)
    requires forall i :: 0 <= i < |es| ==> Possible(es[i])
    ensures Idle(Replay(Initial, es).0)
    ensures Offered(Replay(Initial, es).0.language)
    ensures AllInstructOffered(Replay(Initial, es).1)
  {
    assert Languages[0] in Languages;
    ReplayKeepsIdle(Initial, es);
    ReplayKeepsLanguageOffered(Initial, es);
    ReplayQuestionsNameOffered(Initial, es);
  }
}
