/** A client of one server: the connection, and the chats it is in.  Whatever is
  * received comes over the stream, and the end of the stream empties the chats. */
module Client {
  import opened Wrappers
  import opened AsciiCase
  import opened Connection
  import opened Sessions
  import ServerMachine
  import opened Membership

  // What a server may send, as far as it concerns who is where.
  datatype Received =
    | Welcomed(nick: string)
    | Join(origin: string, chan: string)
    | Part(origin: string, chan: string)
    | Kick(origin: string, chan: string, kicked: string)
    | QuitMsg(origin: string)
    | Nick(origin: string, nick: string)
    | Mode(origin: string, chan: string, mode: string, arg: string)
    | Name(chan: string, nick: string, utype: UserType)
    | ToChannel(origin: string, chan: string)
    | Privmsg(origin: string, fromService: bool)
    | Invite(origin: string, chan: string)
    | Numeric(origin: string, about: Option<string>)

  // What may happen to a client.
  datatype Happening =
    | FromServer(m: Received)
    | Loop(e: Event)
    | Query(name: string, isChannel: bool)
    | Unquery(name: string)

  class SrnClient {
    const machine: ServerMachine.SrnServer
    const members: Membership.SrnServer

    ghost function Repr(): set<object>
      reads members
    {
      {machine, machine.irc, members} + members.chats + members.users + members.lists + members.members
    }

    // What has come to belong to the client is new.
    twostate predicate Grows()
      reads members
    {
      forall o <- Repr() :: o in old(Repr()) || fresh(o)
    }

    /** The session agrees with the state of the server, chats and users agree, and
      * whoever is joined is online, in a chat that is joined if the server is `calm`,
      * while there is a stream. */
    ghost predicate Valid(calm: bool)
      reads *
    {
      && members.irc == machine.irc
      && Agrees(machine.Now()) && members.State(calm) && members.Streaming()
    }

    constructor (name: string, nick: string)
      requires nick != ""
      ensures Valid(true) && machine.Now() == FRESH
      ensures forall o <- Repr() :: fresh(o)
    {
      hide Agrees, Membership.SrnServer.State, Membership.SrnServer.Streaming;
      var m := new ServerMachine.SrnServer();
      var s := SrnClient.NewMembers(name, nick, m.irc);
      machine, members := m, s;
      new;
      EveryRunAgrees([]);
    }

    // A server that has its own chat.
    static method NewMembers(name: string, nick: string, irc: SircSession) returns (s: Membership.SrnServer)
      requires nick != ""
      ensures s.irc == irc && s.State(true) && s.Streaming()
      ensures fresh(s) && (forall c <- s.chats :: fresh(c)) && (forall u <- s.users :: fresh(u))
      ensures (forall l <- s.lists :: fresh(l)) && (forall m <- s.members :: fresh(m))
    {
      hide Membership.SrnServer.State, Membership.SrnServer.Base;
      s := new Membership.SrnServer(name, nick, irc);
      s.Begin();
    }

    /** Registered, or in a chat, only with a stream; and in a chat only online. */
    lemma Presence(calm: bool)
      requires Valid(calm)
      ensures machine.registered || (exists c <- members.chatList :: c.isJoined) ==> machine.irc.stream
      ensures forall c <- members.chatList, cu <- c.userList | cu.isJoined ::
                cu.srvUser.isOnline && (calm ==> c.isJoined)
    {
    }

    // ------------------------------------------------------- what is expected

    // What the server is assumed to send: nicks that differ from known ones in more
    // than case, new nicks that are free or spared, and, if it is calm, nothing about
    // who is in chats it has not let the program into.
    predicate Expected(m: Received, calm: bool)
      reads *
    {
      match m
      case Welcomed(nick) => Free(members.user.nick, nick)
      case Join(origin, chan) => Spelled(origin) && (origin != members.user.nick ==> JoinedIf(calm, chan))
      case Part(_, _) => true
      case Kick(origin, _, _) => Spelled(origin)
      case QuitMsg(_) => true
      case Nick(origin, nick) => Free(origin, nick)
      case Mode(origin, _, _, arg) => Spelled(origin) && Spelled(arg) && (SameName(origin, arg) ==> origin == arg)
      case Name(chan, nick, _) => Spelled(nick) && JoinedIf(calm, chan)
      case ToChannel(origin, _) => Spelled(origin)
      case Privmsg(origin, _) => Spelled(origin)
      case Invite(origin, _) => Spelled(origin)
      case Numeric(origin, _) => Spelled(origin)
    }

    predicate Spelled(nick: string)
      reads members
    {
      forall n <- members.userTable | SameName(n, nick) :: n == nick
    }

    predicate Free(from: string, nick: string)
      reads *
    {
      forall n <- members.userTable | n != from && SameName(n, nick) :: n == nick && members.Idle(members.userTable[n])
    }

    predicate JoinedIf(calm: bool, chan: string)
      reads *
    {
      calm ==> forall c <- members.chatList | SameName(c.name, chan) :: c.isJoined
    }

    lemma SpelledIsConsistent(nick: string, calm: bool)
      requires members.State(calm) && Spelled(nick)
      ensures members.Consistent(nick)
    {
      hide Membership.SrnServer.State;
      members.NicksAreKeys(calm);
    }

    lemma FreeIsSpared(from: string, nick: string, calm: bool)
      requires members.State(calm) && Free(from, nick)
      ensures members.Spared(from, nick)
    {
      hide Membership.SrnServer.State;
      members.NicksAreKeys(calm);
    }

    // ------------------------------------------------------------ what happens

    /** What a message brings: to whom, and in which chats.  Everything else is as it was. */
    twostate predicate Brings(m: Received, calm: bool)
      reads *
    {
      match m
      case Welcomed(nick) => members.Greets(nick)
      case Join(origin, chan) => members.Joins(origin, chan)
      case Part(origin, chan) => members.Parts(origin, chan)
      case Kick(origin, chan, kicked) => members.Kicks(origin, chan, kicked, calm)
      case QuitMsg(origin) => members.Quits(origin)
      case Nick(origin, nick) => members.Renames(origin, nick)
      case Mode(origin, chan, mode, arg) => members.Modes(origin, chan, mode, arg)
      case Name(chan, nick, utype) => members.Names(chan, nick, utype)
      case ToChannel(origin, chan) => members.Speaks(origin, chan)
      case Privmsg(origin, fromService) => members.Writes(origin, fromService)
      case Invite(origin, chan) => members.Invites(origin, chan)
      case Numeric(origin, about) => members.Replies(origin, about)
    }

    /** A message arrives over the stream. */
    method Receive(m: Received, ghost calm: bool)
      requires Valid(calm) && Comes(m, calm)
      modifies Repr()
      ensures Valid(calm) && Grows() && Brings(m, calm)
      ensures machine.Now() == if m.Welcomed? then Step(old(machine.Now()), Welcome) else old(machine.Now())
    {
      hide Membership.SrnServer.State, Membership.SrnServer.Streaming, Agrees, Step, Grows;
      if m.Welcomed? {
        Welcomes(m.nick, calm);
      } else if m.Join? || m.Part? || m.Kick? || m.QuitMsg? || m.Nick? {
        Moves(m, calm);
      } else {
        Talk(m, calm);
      }
    }
    twostate lemma MembersGrow()
      requires members.Grows()
      ensures Grows()
    {
    }

    // Who comes, goes, or changes its name.
    method Moves(m: Received, ghost calm: bool)
      requires Valid(calm) && machine.irc.stream && Expected(m, calm)
      requires m.Join? || m.Part? || m.Kick? || m.QuitMsg? || m.Nick?
      modifies members, members.chats, members.users, members.lists, members.members
      ensures Valid(calm) && Grows() && Brings(m, calm) && machine.Now() == old(machine.Now())
    {
      hide Membership.SrnServer.State, Agrees, Repr, Grows, Membership.SrnServer.Look;
      hide Membership.SrnServer.Joins, Membership.SrnServer.Parts, Membership.SrnServer.Kicks;
      hide Membership.SrnServer.Quits, Membership.SrnServer.Renames, Membership.SrnServer.Modes;
      hide Membership.SrnServer.Names, Membership.SrnServer.Speaks, Membership.SrnServer.Writes;
      hide Membership.SrnServer.Invites, Membership.SrnServer.Replies;
      match m {
        case Join(origin, chan) =>
          SpelledIsConsistent(origin, calm);
          members.OnJoin(origin, chan, calm);
        case Part(origin, chan) => members.OnPart(origin, chan, calm);
        case Kick(origin, chan, kicked) =>
          SpelledIsConsistent(origin, calm);
          members.OnKick(origin, chan, kicked, calm);
        case QuitMsg(origin) => members.OnQuit(origin, calm);
        case Nick(origin, nick) =>
          FreeIsSpared(origin, nick, calm);
          members.OnNick(origin, nick, calm);
      }
      MembersGrow();
    }

    // What is said, and what the server tells of who is where.
    method Talk(m: Received, ghost calm: bool)
      requires Valid(calm) && machine.irc.stream && Expected(m, calm)
      requires m.Mode? || m.Name? || m.ToChannel? || m.Privmsg? || m.Invite? || m.Numeric?
      modifies members, members.chats, members.users, members.lists, members.members
      ensures Valid(calm) && Grows() && Brings(m, calm) && machine.Now() == old(machine.Now())
    {
      hide Membership.SrnServer.State, Agrees, Repr, Grows, Membership.SrnServer.Look;
      hide Membership.SrnServer.Joins, Membership.SrnServer.Parts, Membership.SrnServer.Kicks;
      hide Membership.SrnServer.Quits, Membership.SrnServer.Renames, Membership.SrnServer.Modes;
      hide Membership.SrnServer.Names, Membership.SrnServer.Speaks, Membership.SrnServer.Writes;
      hide Membership.SrnServer.Invites, Membership.SrnServer.Replies;
      match m {
        case Mode(origin, chan, mode, arg) =>
          SpelledIsConsistent(origin, calm);
          SpelledIsConsistent(arg, calm);
          members.OnMode(origin, chan, mode, arg, calm);
        case Name(chan, nick, utype) =>
          SpelledIsConsistent(nick, calm);
          members.OnName(chan, nick, utype, calm);
        case ToChannel(origin, chan) =>
          SpelledIsConsistent(origin, calm);
          members.OnChannel(origin, chan, calm);
        case Privmsg(origin, fromService) =>
          SpelledIsConsistent(origin, calm);
          var _ := members.OnPrivmsg(origin, fromService, calm);
        case Invite(origin, chan) =>
          SpelledIsConsistent(origin, calm);
          var _ := members.OnInvite(origin, chan, calm);
        case Numeric(origin, about) =>
          SpelledIsConsistent(origin, calm);
          members.OnNumeric(origin, about, calm);
      }
      MembersGrow();
    }

    // Whether a message may come now.
    predicate Comes(m: Received, calm: bool)
      reads *
    {
      machine.irc.stream && !machine.removed && Expected(m, calm)
    }

    // The program is registered, under the nick the server gives it.
    method Welcomes(nick: string, ghost calm: bool)
      requires Valid(calm) && machine.irc.stream && !machine.removed && Free(members.user.nick, nick)
      modifies machine, machine.irc, members, members.users
      ensures Valid(calm) && Grows() && machine.Now() == Step(old(machine.Now()), Welcome)
      ensures Brings(Welcomed(nick), calm)
    {
      hide Membership.SrnServer.State, Agrees, Step, Repr, Grows;
      FreeIsSpared(members.user.nick, nick, calm);
      members.SparedForMe(nick, calm);
      StreamAfter(machine.Now(), Welcome);
      machine.Handle(Welcome);
      members.OnWelcome(nick, calm);
      MembersGrow();
    }

    /** A turn of the main loop without a message.  Only the end of the stream concerns
      * the chats: they are left when the server has heard of it. */
    method Turn(e: Event, ghost calm: bool)
      requires Valid(calm) && Possible(machine.Now(), e) && !e.Welcome?
      modifies Repr()
      ensures Valid(calm) && Grows() && machine.Now() == Step(old(machine.Now()), e)
      ensures e.StreamEnds? ==> forall c <- members.chatList :: !c.isJoined && (calm ==> c.Empty())
      ensures members.chatList == old(members.chatList)
      ensures !e.StreamEnds? ==> members.Look() == old(members.Look())
    {
      hide Membership.SrnServer.State, Agrees, Step;
      StreamAfter(machine.Now(), e);
      machine.Handle(e);
      if e.StreamEnds? {
        members.OnDisconnect(calm);
      }
    }

    /** The user opens a chat. */
    method OpenChat(name: string, isChannel: bool, ghost calm: bool)
      requires Valid(calm) && (isChannel || Spelled(name))
      modifies Repr()
      ensures Valid(calm) && Grows() && machine.Now() == old(machine.Now())
      ensures exists c <- members.chatList :: SameName(c.name, name)
      ensures KeepsAll(old(members.Look()), members.Look()) && KeepsMembers(old(members.Look()), members.Look(), Nobody)
    {
      hide Membership.SrnServer.State, Agrees, Grows, SameName;
      if !isChannel {
        SpelledIsConsistent(name, calm);
      }
      var _ := members.Open(name, isChannel, calm);
      MembersGrow();
    }

    /** The user closes a chat; one that is joined stays. */
    method CloseChat(name: string, ghost calm: bool)
      requires Valid(calm)
      modifies Repr()
      ensures Valid(calm) && Grows() && machine.Now() == old(machine.Now())
      ensures forall c <- members.chatList | SameName(c.name, name) :: c.isJoined
      ensures forall c <- old(members.chatList) | !SameName(c.name, name) || c.isJoined :: c in members.chatList
      ensures forall c <- members.chatList :: c in old(members.chatList) && c.isJoined == old(c.isJoined)
    {
      hide Membership.SrnServer.State, Agrees, Grows, SameName;
      var c := members.GetChat(name);
      if c != null {
        members.ListFacts(calm);
        members.OnlyChat(c, name, calm);
        var _ := members.Close(c, calm);
      }
      MembersGrow();
    }

    /** What may happen and is expected happens. */
    method Happen(h: Happening, calm: bool) returns (ghost es: seq<Event>)
      requires Valid(calm)
      modifies Repr()
      ensures Valid(calm) && Grows() && machine.Now() == After(old(machine.Now()), es)
      ensures h.FromServer? && old(Comes(h.m, calm)) ==>
        Brings(h.m, calm) && es == if h.m.Welcomed? then [Welcome] else []
      ensures h.FromServer? && !old(Comes(h.m, calm)) ==> members.Look() == old(members.Look()) && es == []
      ensures h.Loop? && !h.e.Welcome? && Possible(old(machine.Now()), h.e) ==> es == [h.e]
    {
      hide Agrees, Membership.SrnServer.State, Membership.SrnServer.Streaming, Step;
      hide Brings, Membership.SrnServer.Look;
      es := [];
      match h
      case FromServer(m) =>
        if Comes(m, calm) {
          Receive(m, calm);
          es := if m.Welcomed? then [Welcome] else [];
        }
      case Loop(e) =>
        var can := machine.CanHappen(e);
        if can && !e.Welcome? {
          Turn(e, calm);
          es := [e];
        }
      case Query(name, isChannel) =>
        if !machine.removed && (isChannel || Spelled(name)) {
          OpenChat(name, isChannel, calm);
        }
      case Unquery(name) =>
        if !machine.removed {
          CloseChat(name, calm);
        }
    }

    /** In every run, whatever is received, fires, completes or is asked for, in any
      * order, everything stays in agreement, and the connection goes through a run of
      * its own. */
    method Run(hs: seq<Happening>, calm: bool) returns (ghost es: seq<Event>)
      requires Valid(calm)
      modifies Repr()
      ensures Valid(calm) && Grows() && machine.Now() == After(old(machine.Now()), es)
    {
      es := [];
      for i := 0 to |hs|
        invariant Valid(calm) && Grows() && machine.Now() == After(old(machine.Now()), es)
      {
        hide Agrees, Membership.SrnServer.State, Membership.SrnServer.Streaming, Step;
        ghost var more := Happen(hs[i], calm);
        AfterBoth(old(machine.Now()), es, more);
        es := es + more;
      }
    }
  }

  /** A client from its start, through any run. */
  method RunFromStart(name: string, nick: string, hs: seq<Happening>, calm: bool)
      returns (client: SrnClient, ghost es: seq<Event>)
    requires nick != ""
    ensures client.Valid(calm) && client.machine.Now() == After(FRESH, es)
    ensures client.machine.registered || (exists c <- client.members.chatList :: c.isJoined) ==>
      client.machine.irc.stream
    ensures forall c <- client.members.chatList, cu <- c.userList | cu.isJoined :: cu.srvUser.isOnline
  {
    client := new SrnClient(name, nick);
    es := client.Run(hs, calm);
    client.Presence(calm);
  }
}
