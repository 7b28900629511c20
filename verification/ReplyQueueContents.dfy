/** What a queued reply says and where it goes, told by the request that inserted it and by the thread as
    it is stored. */
module ReplyQueueContents {
  import opened JsText
  import opened Options
  import opened ReplySubject
  import opened ReplyQueueModel
  import opened ReplyQueueSafety
  import opened ReplyQueueTheorems

  // ----- trimmed text -----

  /** `t` is `x` without the white space at its two ends, and is not empty. */
  ghost predicate IsTrimmed(x: Text, t: Text) {
    && t != [] && !IsSpace(t[0]) && !IsSpace(t[|t| - 1])
    && exists l: Text, r: Text :: AllSpace(l) && AllSpace(r) && x == l + t + r
  }

  lemma TrimIsTrimmed(x: Text)
    ensures AllSpace(x) <==> Trim(x) == []
    ensures !AllSpace(x) ==> IsTrimmed(x, Trim(x))
  {
    hide IsSpace, TrimLeft, TrimRight;
    var l := LeftSplit(x);
    var y := TrimLeft(x);
    var r := RightSplit(y);
    RightIsPrefix(y);
    assert x == l + Trim(x) + r;
    if Trim(x) != [] {
      assert x[|l|] == Trim(x)[0];
    } else {
      assert x == l + r;
    }
  }

  /** What is not white space lies between the two ends. */
  lemma DarkInside(x: Text, l: Text, t: Text, r: Text, i: nat)
    requires x == l + t + r && AllSpace(l) && AllSpace(r) && i < |x| && !IsSpace(x[i])
    ensures |l| <= i < |l| + |t|
  {
    assert !IsSpace((l + t + r)[i]);
  }

  /** No text has two trimmed forms. */
  lemma TrimmedOnce(x: Text, t: Text, u: Text)
    requires IsTrimmed(x, t) && IsTrimmed(x, u)
    ensures t == u
  {
    hide IsSpace;
    var l, r :| AllSpace(l) && AllSpace(r) && x == l + t + r;
    var m, q :| AllSpace(m) && AllSpace(q) && x == m + u + q;
    DarkInside(x, l, t, r, |m|);
    DarkInside(x, l, t, r, |m| + |u| - 1);
    DarkInside(x, m, u, q, |l|);
    DarkInside(x, m, u, q, |l| + |t| - 1);
    assert t == x[|l|..|l| + |t|] && u == x[|m|..|m| + |u|];
  }

  // ----- what a row's message holds -----

  /** The subject of a reply asked for by `request` in a thread with this stored subject: the operator's own
      without surrounding white space, or, when that leaves nothing, the normalized one of the thread. */
  ghost predicate IsSubjectFor(request: Request, threadSubject: Text, subject: Text) {
    if request.subject.Some? && !AllSpace(request.subject.value) then IsTrimmed(request.subject.value, subject)
    else subject == NormalizeReplySubject(threadSubject)
  }

  lemma EffectiveSubjectFits(request: Request, threadSubject: Text)
    ensures IsSubjectFor(request, threadSubject, EffectiveSubject(request, threadSubject))
  {
    hide AllSpace, IsTrimmed, Trim, NormalizeReplySubject;
    if request.subject.Some? { TrimIsTrimmed(request.subject.value); }
  }

  /** The message of a row says what the call that inserted the row was asked to say. */
  predicate ContentOk(s: System, o: OutboxId)
    requires o in s.outbox
  {
    var row := s.outbox[o];
    && row.insertedBy in s.calls && row.emailMessageId in s.messages
    && s.messages[row.emailMessageId].subject == s.calls[row.insertedBy].subject
    && s.messages[row.emailMessageId].body == s.calls[row.insertedBy].request.body
    && s.messages[row.emailMessageId].threadId == s.calls[row.insertedBy].thread
  }

  lemma NewRow(s: System, a: Action, o: OutboxId)
    requires o !in s.outbox && o in Step(s, a).outbox
    ensures ContentOk(Step(s, a), o)
    ensures a.Insert? && a.c in s.calls && s.calls[a.c].progress.Inserting? && Step(s, a).outbox[o].insertedBy == a.c
    ensures Step(s, a).outbox[o].delivery.recipient == s.calls[a.c].progress.recipient
    ensures var t, h := Step(s, a), s.weigh(Step(s, a).outbox[o].threadId); h in t.threads && t.threads[h].lastMessageAt == a.now
  {
    hide EffectiveSubject, KeyTaken, RecipientProblem;
  }

  lemma StepContent(s: System, a: Action, o: OutboxId)
    requires Inv(s) && o in Step(s, a).outbox && (o in s.outbox ==> ContentOk(s, o))
    ensures ContentOk(Step(s, a), o)
  {
    if o in s.outbox {
      KeepsStep(s, a);
      assert InserterOk(s, o);
      hide Step, Inv, EffectiveSubject;
    } else {
      NewRow(s, a, o);
    }
  }

  lemma {:induction false} RunContent(origin: System, run: seq<Action>, o: OutboxId)
    requires Initial(origin) && o in Exec(origin, run).outbox
    ensures ContentOk(Exec(origin, run), o)
    decreases |run|
  {
    hide ContentOk, Inv, Step;
    if run != [] {
      var before := Exec(origin, run[..|run| - 1]);
      if o in before.outbox { RunContent(origin, run[..|run| - 1], o); }
      RunInv(origin, run[..|run| - 1]);
      StepContent(before, run[|run| - 1], o);
    }
  }

  /** In every run each row's message carries the body its inserter was asked to send, in the thread it
      meant, under the operator's own trimmed subject or, without one, the normalized subject of that thread
      as it is stored. */
  lemma {:induction false} InsertedReplySaysWhatWasAsked(origin: System, run: seq<Action>, o: OutboxId)
    requires Initial(origin) && o in Exec(origin, run).outbox
    ensures var s := Exec(origin, run); var row := s.outbox[o];
      && row.insertedBy in s.calls && row.emailMessageId in s.messages
      && var (request, message) := (s.calls[row.insertedBy].request, s.messages[row.emailMessageId]);
         && message.body == request.body
         && message.threadId == row.threadId && s.weigh(row.threadId) == s.weigh(request.threadId)
         && s.weigh(row.threadId) in s.threads
         && IsSubjectFor(request, s.threads[s.weigh(row.threadId)].subject, message.subject)
  {
    hide EffectiveSubject, IsSubjectFor, Exec, Initial;
    var s := Exec(origin, run);
    RunInv(origin, run);
    RunContent(origin, run, o);
    assert RowOk(s, o) && InserterOk(s, o);
    var call := s.calls[s.outbox[o].insertedBy];
    assert CallOk(s, s.outbox[o].insertedBy);
    EffectiveSubjectFits(call.request, s.threads[s.weigh(call.request.threadId)].subject);
  }

  /** In every run a call that returned names a message with its own body, under its own trimmed subject or,
      without one, the normalized subject of its thread. */
  lemma {:induction false} AnswersSayWhatWasAsked(origin: System, run: seq<Action>, c: CallId)
    requires Initial(origin) && c in Exec(origin, run).calls && Answered(Exec(origin, run).calls[c])
    ensures var s := Exec(origin, run); var call := s.calls[c];
      && call.progress.result.emailMessageId in s.messages
      && s.weigh(call.request.threadId) in s.threads
      && var message := s.messages[call.progress.result.emailMessageId];
         && message.body == call.request.body
         && IsSubjectFor(call.request, s.threads[s.weigh(call.request.threadId)].subject, message.subject)
  {
    hide EffectiveSubject, IsSubjectFor, Exec, Initial;
    var s := Exec(origin, run);
    RunInv(origin, run);
    var call := s.calls[c];
    assert CallOk(s, c);
    EffectiveSubjectFits(call.request, s.threads[s.weigh(call.request.threadId)].subject);
  }

  /** Of two calls of one actor and key, up to collation, whose own subjects differ without the white space
      around them, at most one returns. */
  lemma {:induction false} DifferentSubjectsShareNothing(origin: System, run: seq<Action>, c: CallId, d: CallId, t: Text, u: Text)
    requires Initial(origin) && c in Exec(origin, run).calls && d in Exec(origin, run).calls
    requires var s := Exec(origin, run); var (a, b) := (s.calls[c].request, s.calls[d].request);
      && SameKey(s, s.calls[c], s.calls[d]) && a.subject.Some? && b.subject.Some?
      && IsTrimmed(a.subject.value, t) && IsTrimmed(b.subject.value, u) && t != u
    ensures !Answered(Exec(origin, run).calls[c]) || !Answered(Exec(origin, run).calls[d])
  {
    hide IsTrimmed, Exec, Initial, AllSpace;
    var s := Exec(origin, run);
    if Answered(s.calls[c]) && Answered(s.calls[d]) {
      AnswersSayWhatWasAsked(origin, run, c);
      AnswersSayWhatWasAsked(origin, run, d);
      OneAnswerPerKey(origin, run, c, d);
      var x, y := s.calls[c].request.subject.value, s.calls[d].request.subject.value;
      var subject := s.messages[s.calls[c].progress.result.emailMessageId].subject;
      TrimmedIsDark(x, t);
      TrimmedIsDark(y, u);
      TrimmedOnce(x, t, subject);
      TrimmedOnce(y, u, subject);
    }
  }

  lemma TrimmedIsDark(x: Text, t: Text)
    requires IsTrimmed(x, t)
    ensures !AllSpace(x)
  {
    hide IsSpace;
    var l, r :| AllSpace(l) && AllSpace(r) && x == l + t + r;
    assert x[|l|] == t[0];
  }
}
