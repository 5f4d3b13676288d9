/** What the requester of a command does with the reply: the branches of onMsgFromBroker for
    replies. */
module ReplyDispatch {
  import opened Keys
  import opened RedisContexts
  import opened RedisRuns

  /** A worker. */
  type Worker = nat

  /** A command as its requester sent it. A callback is known by the worker it belongs to. */
  datatype Sender = Sender(request: Request, ignored: bool, callback: Option<Worker>, failCallback: Option<Worker>)

  datatype Action = RunCallback | RunFailCallback | CallOnReply | Drop

  /** Command::replyOk, and CommandPack's, which also counts the replies. */
  predicate ReplyOk(r: Request, reply: Sent)
    requires reply != PlainMsg
  {
    match reply
    case ReplyPackMsg(oks, ok) => r.PackOf? && ok && |oks| == |r.commands|
    case ReplyMsg(ok) => !r.PackOf? && ok
  }

  function Dispatch(self: Worker, s: Sender, reply: Sent): Action
    requires reply != PlainMsg
  {
    if s.ignored then Drop
    else if s.callback == Some(self) then
      if ReplyOk(s.request, reply) then RunCallback
      else if s.failCallback.Some? then RunFailCallback
      else CallOnReply
    else CallOnReply
  }

  /** A requester that has set both callbacks has its success callback run exactly when every
      command of its pack was started and succeeded, and its failure callback otherwise. */
  lemma CallbackTellsTheTruth(es: seq<Event>, h: Handle, self: Worker, s: Sender)
    requires IsRun(START, es) && h in After(START, es).lives && h !in After(START, es).inFlight
    requires s.request == After(START, es).lives[h].request && s.request.PackOf?
    requires !s.ignored && s.callback == Some(self) && s.failCallback == Some(self)
    ensures var l := After(START, es).lives[h];
            && |l.sent| == 1 && l.sent[0] != PlainMsg
            && Dispatch(self, s, l.sent[0]) ==
               if l.started == s.request.commands && AllOk(l.outcomes) then RunCallback else RunFailCallback
  {
    PackRepliesOnce(es, h);
  }

  /** For a single command each reply sent runs the success callback exactly when its outcome was a
      success: one of the two callbacks, or after an empty hash first the failure callback and then the
      success callback. */
  lemma SingleTellsTheTruth(es: seq<Event>, h: Handle, self: Worker, s: Sender, i: nat)
    requires IsRun(START, es) && h in After(START, es).lives && h !in After(START, es).inFlight
    requires s.request == After(START, es).lives[h].request && s.request.Single?
    requires !s.ignored && s.callback == Some(self) && s.failCallback == Some(self)
    requires i < |After(START, es).lives[h].sent|
    ensures var l := After(START, es).lives[h];
            && |l.sent| == |l.outcomes| && l.sent[i] != PlainMsg
            && Dispatch(self, s, l.sent[i]) == if l.outcomes[i] then RunCallback else RunFailCallback
  {
    Always(es);
    assert Sane(After(START, es), h);
  }

  /** No callback of its own runs for a requester that ignores replies, whose callback belongs to
      another, or that has no failure callback when the command failed: the first drops the reply, the
      others are handed it. */
  lemma OtherwiseHandedOver(self: Worker, s: Sender, reply: Sent)
    requires reply != PlainMsg
    ensures s.ignored ==> Dispatch(self, s, reply) == Drop
    ensures !s.ignored && s.callback != Some(self) ==> Dispatch(self, s, reply) == CallOnReply
    ensures Dispatch(self, s, reply) == RunFailCallback ==> s.failCallback.Some?
    ensures Dispatch(self, s, reply) == Drop ==> s.ignored
  {}

  /** Replies meet the commands in order: entry i of the pack's reply is the outcome of its i-th
      command, and a failure for each command that was not started. */
  lemma EntriesMatchCommands(es: seq<Event>, h: Handle, i: nat)
    requires IsRun(START, es) && h in After(START, es).lives && h !in After(START, es).inFlight
    requires After(START, es).lives[h].request.PackOf? && i < |After(START, es).lives[h].request.commands|
    ensures var l := After(START, es).lives[h];
            |l.sent| == 1 && l.sent[0].ReplyPackMsg? && i < |l.sent[0].oks| &&
            (l.sent[0].oks[i] <==>
             i < |l.started| && l.started[i] == l.request.commands[i] && i < |l.outcomes| && l.outcomes[i])
  {
    PackRepliesOnce(es, h);
  }
}
