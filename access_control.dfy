/** The bot's access control: an approved set and a banned set of chat user
    ids, a fixed admin id, the four admin commands that edit the sets and the
    gate every plain text message passes before any processing. */
module AccessControl {
  import opened Wrappers
  import opened Decimal

  /** `is_admin`: the caller is the one configured admin id. */
  predicate IsAdmin(admin: int, uid: int) {
    uid == admin
  }

  /** The two id sets, as a value. */
  datatype Lists = Lists(approved: set<int>, banned: set<int>)

  /** The admin commands. `Approve` and `Remove` edit the approved set,
      `Ban` and `Unban` the banned set; `Approve` and `Ban` add, the other
      two discard. */
  datatype Command = Approve | Remove | Ban | Unban {
    predicate OnApproved() { this == Approve || this == Remove }
    predicate Adds() { this == Approve || this == Ban }
    function Name(): string {
      match this
      case Approve => "approve"
      case Remove => "remove"
      case Ban => "ban"
      case Unban => "unban"
    }

    /** The start of the confirmation, before the id. */
    function Confirmation(): string {
      match this
      case Approve => "✅ Approved "
      case Remove => "\U{1F5D1}\U{FE0F} Removed "
      case Ban => "\U{1F6AB} Banned "
      case Unban => "✅ Unbanned "
    }
  }

  /** The set a command edits, and the one it leaves alone. */
  function Target(l: Lists, c: Command): set<int> {
    if c.OnApproved() then l.approved else l.banned
  }

  function Other(l: Lists, c: Command): set<int> {
    if c.OnApproved() then l.banned else l.approved
  }

  /** A reply to an admin command: the confirmation naming the id, or the
      usage line sent when the argument is missing or not a number. */
  datatype Reply = Done(command: Command, uid: int) | Usage(command: Command)

  /** The reply texts sent by the four handlers. */
  function ReplyText(r: Reply): (t: string)
    ensures r.Usage? ==> t == "❌ Usage: /" + r.command.Name() + " <id>"
    ensures r.Done? ==> |t| > |IntToDecimal(r.uid)| && ParseInt(t[|t| - |IntToDecimal(r.uid)|..]) == Some(r.uid)
  {
    match r
    case Usage(c) => "❌ Usage: /" + c.Name() + " <id>"
    case Done(c, uid) =>
      var t := c.Confirmation() + IntToDecimal(uid);
      assert t[|t| - |IntToDecimal(uid)|..] == IntToDecimal(uid);
      IntRoundTrip(uid);
      t
  }

  /** The characters that tell the replies apart: a usage reply starts with
      the cross mark and has the command name from position 10 on; the third
      character of a confirmation differs between the four commands. */
  lemma ReplyMarks(r: Reply)
    ensures var t := ReplyText(r);
            && |t| > 2
            && (t[0] == '❌' <==> r.Usage?)
            && (r.Usage? ==> |t| > 10 && t[10] == r.command.Name()[0])
            && (r.Done? ==> t[2] == (match r.command
                 case Approve => 'A' case Remove => ' ' case Ban => 'B' case Unban => 'U'))
  {
    match r
    case Usage(c) =>
      var t := ReplyText(r);
      assert t[10] == c.Name()[0];
    case Done(c, uid) =>
      var t := ReplyText(r);
      assert t[..|c.Confirmation()|] == c.Confirmation();
  }

  /** Different replies have different texts: the text names both the
      command and the id. */
  lemma ReplyTextInjective(a: Reply, b: Reply)
    ensures ReplyText(a) == ReplyText(b) ==> a == b
  {
    if ReplyText(a) == ReplyText(b) {
      ReplyMarks(a);
      ReplyMarks(b);
      assert a.command == b.command;
      if a.Done? {
        var p := a.command.Confirmation();
        assert IntToDecimal(a.uid) == ReplyText(a)[|p|..] == IntToDecimal(b.uid);
        IntToDecimalInjective(a.uid, b.uid);
      }
    }
  }

  /** One admin command, as its handler runs it: a caller other than the admin
      is ignored without a reply; otherwise a missing or unparsable argument
      gets the usage reply; otherwise the id is added to, or discarded from,
      the command's target set and the confirmation is sent. Discarding an id
      that is not there is not an error. */
  function Execute(l: Lists, admin: int, caller: int, c: Command, arg: Option<int>): (r: (Lists, Option<Reply>))
    ensures caller != admin ==> r == (l, None)
    ensures caller == admin && arg.None? ==> r == (l, Some(Usage(c)))
    ensures caller == admin && arg.Some? ==>
              && r.1 == Some(Done(c, arg.value))
              && Other(r.0, c) == Other(l, c)
              && Target(r.0, c) == (if c.Adds() then Target(l, c) + {arg.value} else Target(l, c) - {arg.value})
  {
    if !IsAdmin(admin, caller) then (l, None)
    else match arg
      case None => (l, Some(Usage(c)))
      case Some(uid) =>
        var next := (match c
          case Approve => Lists(l.approved + {uid}, l.banned)
          case Remove => Lists(l.approved - {uid}, l.banned)
          case Ban => Lists(l.approved, l.banned + {uid})
          case Unban => Lists(l.approved, l.banned - {uid}));
        (next, Some(Done(c, uid)))
  }

  /** The text of the replies the gate sends. */
  const BannedText: string := "\U{1F6AB} You are banned from using this bot."
  const ProcessingText: string := "⏳ Processing automation..."
  const NotApprovedText: string := "\U{1F6AB} You are not approved to use the bot."

  /** What the gate does with a message: the replies it sends, in order, and
      whether the request goes on to be processed. */
  datatype Gate = Gate(replies: seq<string>, proceeds: bool)

  /** The ban check of the message handler, then (after the "processing"
      reply) the approval check at the start of the processing. */
  function Admission(l: Lists, uid: int): (g: Gate)
    ensures g.proceeds <==> uid !in l.banned && uid in l.approved
    ensures uid in l.banned ==> g.replies == [BannedText]
    ensures uid !in l.banned ==> |g.replies| > 0 && g.replies[0] == ProcessingText
    ensures uid !in l.banned && uid !in l.approved ==> g.replies[1..] == [NotApprovedText]
    ensures g.proceeds ==> g.replies == [ProcessingText]
  {
    if uid in l.banned then Gate([BannedText], false)
    else if uid !in l.approved then Gate([ProcessingText, NotApprovedText], false)
    else Gate([ProcessingText], true)
  }

  /** A command invocation as the bot receives it. */
  datatype Call = Call(caller: int, command: Command, arg: Option<int>)

  /** The lists after a sequence of commands, handled one after another. */
  function Run(l: Lists, admin: int, calls: seq<Call>): Lists
    decreases |calls|
  {
    if calls == [] then l
    else
      var c := calls[0];
      Run(Execute(l, admin, c.caller, c.command, c.arg).0, admin, calls[1..])
  }

  /** Commands from anyone but the admin, however many, change nothing. */
  lemma {:induction false} NonAdminCallsInert(l: Lists, admin: int, calls: seq<Call>)
    requires forall i :: 0 <= i < |calls| ==> calls[i].caller != admin
    ensures Run(l, admin, calls) == l
    decreases |calls|
  {
    if calls != [] {
      assert forall i :: 0 <= i < |calls[1..]| ==> calls[1..][i] == calls[i + 1];
      NonAdminCallsInert(l, admin, calls[1..]);
    }
  }

  /** Commands with a missing or unparsable argument change nothing. */
  lemma {:induction false} UsageCallsInert(l: Lists, admin: int, calls: seq<Call>)
    requires forall i :: 0 <= i < |calls| ==> calls[i].arg.None?
    ensures Run(l, admin, calls) == l
    decreases |calls|
  {
    if calls != [] {
      assert forall i :: 0 <= i < |calls[1..]| ==> calls[1..][i] == calls[i + 1];
      UsageCallsInert(l, admin, calls[1..]);
    }
  }

  /** Repeating an admin command with the same id has no further effect. */
  lemma ExecuteIdempotent(l: Lists, admin: int, c: Command, uid: int)
    ensures var once := Execute(l, admin, admin, c, Some(uid)).0;
            Execute(once, admin, admin, c, Some(uid)).0 == once
  {
  }

  /** After a discard the id is absent from the target set, whether or not it was there. */
  lemma DiscardRemoves(l: Lists, admin: int, c: Command, uid: int)
    requires !c.Adds()
    ensures var after := Execute(l, admin, admin, c, Some(uid));
            uid !in Target(after.0, c) && after.1 == Some(Done(c, uid))
  {
  }

  /** Approving and then removing an id that was not approved restores the lists;
      likewise banning and then unbanning an id that was not banned. */
  lemma AddThenDiscard(l: Lists, admin: int, uid: int)
    ensures uid !in l.approved ==>
              Execute(Execute(l, admin, admin, Approve, Some(uid)).0, admin, admin, Remove, Some(uid)).0 == l
    ensures uid !in l.banned ==>
              Execute(Execute(l, admin, admin, Ban, Some(uid)).0, admin, admin, Unban, Some(uid)).0 == l
  {
  }

  /** A ban shuts the user out whatever the approved set says, the admin included. */
  lemma BanShutsOut(l: Lists, admin: int, uid: int)
    ensures var after := Execute(l, admin, admin, Ban, Some(uid)).0;
            after.approved == l.approved && Admission(after, uid) == Gate([BannedText], false)
  {
  }

  /** The mutable store the handlers share: the two sets and the admin id. */
  class AccessList {
    const admin: int
    var approved: set<int>
    var banned: set<int>

    /** The admin starts approved; nobody starts banned. */
    constructor (admin: int)
      ensures this.admin == admin
      ensures approved == {admin} && banned == {}
    {
      this.admin := admin;
      approved := {admin};
      banned := {};
    }

    function State(): Lists
      reads this
    {
      Lists(approved, banned)
    }

    /** The `/approve` handler. */
    method Approve(caller: int, arg: Option<int>) returns (reply: Option<Reply>)
      modifies this`approved
      ensures (State(), reply) == Execute(old(State()), admin, caller, Command.Approve, arg)
    {
      reply := None;
      if !IsAdmin(admin, caller) {
        return;
      }
      match arg {
        case None =>
          reply := Some(Usage(Command.Approve));
        case Some(uid) =>
          approved := approved + {uid};
          reply := Some(Done(Command.Approve, uid));
      }
    }

    /** The `/remove` handler. */
    method Remove(caller: int, arg: Option<int>) returns (reply: Option<Reply>)
      modifies this`approved
      ensures (State(), reply) == Execute(old(State()), admin, caller, Command.Remove, arg)
    {
      reply := None;
      if !IsAdmin(admin, caller) {
        return;
      }
      match arg {
        case None =>
          reply := Some(Usage(Command.Remove));
        case Some(uid) =>
          approved := approved - {uid};
          reply := Some(Done(Command.Remove, uid));
      }
    }

    /** The `/ban` handler. */
    method Ban(caller: int, arg: Option<int>) returns (reply: Option<Reply>)
      modifies this`banned
      ensures (State(), reply) == Execute(old(State()), admin, caller, Command.Ban, arg)
    {
      reply := None;
      if !IsAdmin(admin, caller) {
        return;
      }
      match arg {
        case None =>
          reply := Some(Usage(Command.Ban));
        case Some(uid) =>
          banned := banned + {uid};
          reply := Some(Done(Command.Ban, uid));
      }
    }

    /** The `/unban` handler. */
    method Unban(caller: int, arg: Option<int>) returns (reply: Option<Reply>)
      modifies this`banned
      ensures (State(), reply) == Execute(old(State()), admin, caller, Command.Unban, arg)
    {
      reply := None;
      if !IsAdmin(admin, caller) {
        return;
      }
      match arg {
        case None =>
          reply := Some(Usage(Command.Unban));
        case Some(uid) =>
          banned := banned - {uid};
          reply := Some(Done(Command.Unban, uid));
      }
    }

    /** The gate a plain text message from `uid` passes; reads the sets only. */
    method Admit(uid: int) returns (g: Gate)
      ensures g == Admission(State(), uid)
      ensures g.proceeds <==> uid !in banned && uid in approved
    {
      if uid in banned {
        g := Gate([BannedText], false);
      } else if uid !in approved {
        g := Gate([ProcessingText, NotApprovedText], false);
      } else {
        g := Gate([ProcessingText], true);
      }
    }
  }
}
