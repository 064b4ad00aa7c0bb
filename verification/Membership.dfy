/** Who is where: chats, the users of a server, the chat users between them, and
  * the user list that each chat shows. */
module Membership {
  import opened Wrappers
  import opened AsciiCase
  import opened Sessions

  datatype UserType = Chigua | Voiced | HalfOp | FullOp | Admin | Owner

  // ------------------------------------------------------------- statistics

  datatype Stat = Stat(fullOp: int, halfOp: int, voiced: int, total: int)

  const NOBODY := Stat(0, 0, 0, 0)

  // What one user adds.
  function One(t: UserType): Stat {
    Stat(if t.FullOp? || t.Admin? || t.Owner? then 1 else 0, if t.HalfOp? then 1 else 0, if t.Voiced? then 1 else 0, 1)
  }

  function Plus(a: Stat, b: Stat): Stat {
    Stat(a.fullOp + b.fullOp, a.halfOp + b.halfOp, a.voiced + b.voiced, a.total + b.total)
  }

  function Minus(a: Stat, b: Stat): Stat {
    Stat(a.fullOp - b.fullOp, a.halfOp - b.halfOp, a.voiced - b.voiced, a.total - b.total)
  }

  // The sum of some figures.
  function Sum(ws: seq<Stat>, n: nat): Stat
    requires n <= |ws|
  {
    if n == 0 then NOBODY else Plus(Sum(ws, n - 1), ws[n - 1])
  }

  lemma {:induction false} SumSame(ws: seq<Stat>, us: seq<Stat>, n: nat)
    requires n <= |ws| && n <= |us| && forall i | 0 <= i < n :: ws[i] == us[i]
    ensures Sum(us, n) == Sum(ws, n)
  {
    if n > 0 {
      SumSame(ws, us, n - 1);
    }
  }

  lemma {:induction false} TotalIsLength(ws: seq<Stat>, n: nat)
    requires n <= |ws| && forall w <- ws :: w.total == 1
    ensures Sum(ws, n).total == n
  {
    if n > 0 {
      assert ws[n - 1] in ws;
      TotalIsLength(ws, n - 1);
    }
  }

  // One figure changes.
  lemma {:induction false} SumUpdate(ws: seq<Stat>, us: seq<Stat>, k: nat, n: nat)
    requires k < n <= |ws| && |us| == |ws| && forall i | 0 <= i < n && i != k :: us[i] == ws[i]
    ensures Sum(us, n) == Plus(Minus(Sum(ws, n), ws[k]), us[k])
  {
    if k < n - 1 {
      SumUpdate(ws, us, k, n - 1);
    } else {
      SumSame(ws, us, k);
    }
  }

  // One figure goes.
  lemma {:induction false} SumDelete(ws: seq<Stat>, us: seq<Stat>, k: nat, n: nat)
    requires k < n <= |ws| && |us| == |ws| - 1
    requires forall i | 0 <= i < k :: us[i] == ws[i]
    requires forall i | k <= i < n - 1 :: us[i] == ws[i + 1]
    ensures Sum(us, n - 1) == Minus(Sum(ws, n), ws[k])
  {
    if k < n - 1 {
      SumDelete(ws, us, k, n - 1);
    } else {
      SumSame(ws, us, k);
    }
  }

  // ------------------------------------------------------------- user lists

  // A row of the list store: a chat user, and the type that is shown.
  datatype Row = Row(user: SrnChatUser, shown: UserType)

  predicate HasRow(rows: seq<Row>, u: SrnChatUser) {
    exists k :: 0 <= k < |rows| && rows[k].user == u
  }

  predicate OneRowEach(rows: seq<Row>) {
    forall i, j :: 0 <= i < j < |rows| ==> rows[i].user != rows[j].user
  }

  function RowOf(rows: seq<Row>, u: SrnChatUser, k: nat): (r: nat)
    requires k <= |rows| && exists j :: k <= j < |rows| && rows[j].user == u
    ensures k <= r < |rows| && rows[r].user == u
    decreases |rows| - k
  {
    if rows[k].user == u then k else RowOf(rows, u, k + 1)
  }

  function Shown(rows: seq<Row>): seq<Stat> {
    seq(|rows|, i requires 0 <= i < |rows| => One(rows[i].shown))
  }

  // The histogram of the rows.
  function RowStat(rows: seq<Row>): Stat {
    Sum(Shown(rows), |rows|)
  }

  lemma {:induction false} RowsAppend(rows: seq<Row>, r: Row)
    ensures RowStat(rows + [r]) == Plus(RowStat(rows), One(r.shown))
  {
    SumSame(Shown(rows), Shown(rows + [r]), |rows|);
  }

  lemma {:induction false} RowsUpdate(rows: seq<Row>, k: nat, r: Row)
    requires k < |rows|
    ensures RowStat(rows[k := r]) == Plus(Minus(RowStat(rows), One(rows[k].shown)), One(r.shown))
  {
    SumUpdate(Shown(rows), Shown(rows[k := r]), k, |rows|);
  }

  // The rows of all users but u are the same.
  ghost predicate OthersKept(before: seq<Row>, rows: seq<Row>, u: SrnChatUser) {
    (forall r <- rows :: r.user != u ==> r in before) && (forall r <- before :: r.user != u ==> r in rows)
  }

  lemma UpdatedAt(rows: seq<Row>, u: SrnChatUser, t: UserType, k: nat)
    requires OneRowEach(rows) && k < |rows| && rows[k].user == u
    ensures OthersKept(rows, rows[k := Row(u, t)], u) && OneRowEach(rows[k := Row(u, t)])
  {
    var after := rows[k := Row(u, t)];
    forall r <- rows | r.user != u ensures r in after {
      var i :| 0 <= i < |rows| && rows[i] == r;
      assert after[i] == r;
    }
  }

  lemma UpdatedLast(rows: seq<Row>, u: SrnChatUser, more: seq<Row>)
    requires OneRowEach(rows) && !HasRow(rows, u) && more == rows + [Row(u, Chigua)]
    ensures OneRowEach(more) && OthersKept(rows, more, u) && more[|rows|] == Row(u, Chigua) && |rows| < |more|
    ensures RowStat(more) == Plus(RowStat(rows), One(Chigua))
  {
    RowsAppend(rows, Row(u, Chigua));
  }

  function WithoutRow(rows: seq<Row>, k: nat): seq<Row>
    requires k < |rows|
  {
    rows[..k] + rows[k + 1..]
  }

  lemma {:induction false} RowsDelete(rows: seq<Row>, k: nat)
    requires k < |rows|
    ensures RowStat(WithoutRow(rows, k)) == Minus(RowStat(rows), One(rows[k].shown))
  {
    SumDelete(Shown(rows), Shown(WithoutRow(rows, k)), k, |rows|);
  }

  // The user's row is gone, the others are as they were.
  lemma {:induction false} RowGone(rows: seq<Row>, u: SrnChatUser, k: nat)
    requires OneRowEach(rows) && k < |rows| && rows[k].user == u
    ensures var rest := WithoutRow(rows, k);
      OneRowEach(rest) && !HasRow(rest, u) && OthersKept(rows, rest, u)
  {
    var rest := WithoutRow(rows, k);
    assert forall i | 0 <= i < |rest| :: rest[i] == rows[if i < k then i else i + 1];
    forall r | r in rows && r.user != u ensures r in rest {
      var i :| 0 <= i < |rows| && rows[i] == r;
      assert rest[if i < k then i else i - 1] == r;
    }
  }

  /** The user list of a chat: a list store and four counters that are kept up to
    * date change by change. */
  class SuiUserList {
    var rows: seq<Row>
    var stat: Stat

    constructor ()
      ensures rows == [] && stat == NOBODY
    {
      rows, stat := [], NOBODY;
    }

    // Moves a user from one grade to another.
    method Regrade(before: UserType, after: UserType)
      modifies this`stat
      ensures stat == Plus(Minus(old(stat), One(before)), One(after))
    {
      if after != before {
        match after {
          case Admin | Owner | FullOp => stat := stat.(fullOp := stat.fullOp + 1);
          case HalfOp => stat := stat.(halfOp := stat.halfOp + 1);
          case Voiced => stat := stat.(voiced := stat.voiced + 1);
          case Chigua =>
        }
        match before {
          case Admin | Owner | FullOp => stat := stat.(fullOp := stat.fullOp - 1);
          case HalfOp => stat := stat.(halfOp := stat.halfOp - 1);
          case Voiced => stat := stat.(voiced := stat.voiced - 1);
          case Chigua =>
        }
      }
    }

    // The rows count as the counters say, and u has one that shows what its entry
    // showed last.
    predicate Lists(u: SrnChatUser)
      reads this, u
    {
      && stat == RowStat(rows) && OneRowEach(rows) && u.uiList && u.uiStat
      && exists k :: 0 <= k < |rows| && rows[k] == Row(u, u.uiType)
    }

    method UpdateUser(u: SrnChatUser)
      requires Lists(u)
      modifies this, u`uiType
      ensures Lists(u) && u.uiType == u.utype && OthersKept(old(rows), rows, u)
      ensures stat == Plus(Minus(old(stat), One(old(u.uiType))), One(u.utype))
    {
      var k := RowOf(rows, u, 0);
      RowsUpdate(rows, k, Row(u, u.utype));
      UpdatedAt(rows, u, u.utype, k);
      Regrade(u.uiType, u.utype);
      u.uiType := u.utype;
      rows := rows[k := Row(u, u.utype)];
      assert rows[k] == Row(u, u.uiType);
    }

    method AddUser(u: SrnChatUser)
      requires stat == RowStat(rows) && OneRowEach(rows) && !HasRow(rows, u)
      requires !u.uiList && !u.uiStat && u.uiType.Chigua?
      modifies this, u`uiList, u`uiStat, u`uiType
      ensures Lists(u) && u.uiType == u.utype && OthersKept(old(rows), rows, u)
      ensures stat == Plus(old(stat), One(u.utype))
    {
      hide RowStat, OneRowEach;
      AppendRow(u);
      UpdateUser(u);
    }

    method AppendRow(u: SrnChatUser)
      requires stat == RowStat(rows) && OneRowEach(rows) && !HasRow(rows, u)
      requires !u.uiList && !u.uiStat && u.uiType.Chigua?
      modifies this, u`uiList, u`uiStat
      ensures Lists(u) && OthersKept(old(rows), rows, u) && stat == Plus(old(stat), One(Chigua))
    {
      hide RowStat;
      var more := rows + [Row(u, Chigua)];
      UpdatedLast(rows, u, more);
      rows := more;
      stat := stat.(total := stat.total + 1);
      u.SetEntry(true);
    }

    /** Sets the type of the user back before the row goes, so that the counters are
      * right. */
    method RmUser(u: SrnChatUser)
      requires Lists(u)
      modifies this, u`uiType, u`uiList, u`uiStat, u`utype
      ensures stat == RowStat(rows) && OneRowEach(rows) && !HasRow(rows, u)
      ensures u.utype.Chigua? && u.uiType.Chigua? && !u.uiList && !u.uiStat
      ensures OthersKept(old(rows), rows, u) && stat == Minus(old(stat), One(old(u.uiType)))
    {
      u.utype := Chigua;
      UpdateUser(u);
      RemoveRow(u);
      u.SetEntry(false);
    }

    method RemoveRow(u: SrnChatUser)
      requires Lists(u) && u.uiType.Chigua?
      modifies this
      ensures stat == RowStat(rows) && OneRowEach(rows) && !HasRow(rows, u)
      ensures OthersKept(old(rows), rows, u) && stat == Minus(old(stat), One(Chigua))
    {
      var k := RowOf(rows, u, 0);
      assert rows[k] == Row(u, Chigua);
      RowsDelete(rows, k);
      RowGone(rows, u, k);
      stat := stat.(total := stat.total - 1);
      rows := WithoutRow(rows, k);
    }
  }

  // ------------------------------------------------------------- chat users

  /** A user in a chat, together with its entry for the user list. */
  class SrnChatUser {
    const chat: SrnChat
    const srvUser: SrnServerUser
    var utype: UserType
    var isJoined: bool

    // The entry: what it showed last, and whether it has a list and counters.
    var uiType: UserType
    var uiList: bool
    var uiStat: bool

    constructor (chat: SrnChat, srvUser: SrnServerUser)
      ensures this.chat == chat && this.srvUser == srvUser
      ensures utype.Chigua? && !isJoined && uiType.Chigua? && !uiList && !uiStat
    {
      this.chat, this.srvUser := chat, srvUser;
      utype, isJoined, uiType, uiList, uiStat := Chigua, false, Chigua, false, false;
    }

    // Sets or clears the list; it has to change.
    method SetList(on: bool) returns (ok: bool)
      modifies this`uiList
      ensures ok == (old(uiList) != on) && uiList == on
    {
      ok := uiList != on;
      uiList := on;
    }

    method SetStat(on: bool) returns (ok: bool)
      modifies this`uiStat
      ensures ok == (old(uiStat) != on) && uiStat == on
    {
      ok := uiStat != on;
      uiStat := on;
    }

    // The list and the counters are set and cleared in turn: neither call fails.
    method SetEntry(on: bool)
      requires uiList != on && uiStat != on
      modifies this`uiList, this`uiStat
      ensures uiList == uiStat == on
    {
      var ok := SetList(on);
      assert ok;
      ok := SetStat(on);
      assert ok;
    }

    // What the user counts for in its chat.
    function Weight(): Stat
      reads this
    {
      if isJoined then One(utype) else NOBODY
    }

    // The entry shows the user just when it is joined.
    predicate EntryFits()
      reads this
    {
      && uiList == isJoined && uiStat == isJoined
      && uiType == if isJoined then utype else Chigua
    }

    method SetType(t: UserType)
      requires chat.View() && this in chat.userList
      modifies this`utype, this`uiType, chat.list
      ensures chat.View() && utype == t
    {
      if utype == t {
        return;
      }
      utype := t;
      if isJoined {
        chat.list.UpdateUser(this);
      }
      chat.RowsKept(this);
      chat.CountKept(this);
    }

    method SetIsJoined(joined: bool)
      requires chat.View() && this in chat.userList && (chat.kind.ServerChat? ==> !joined)
      modifies this`utype, this`isJoined, this`uiType, this`uiList, this`uiStat, chat.list
      ensures chat.View() && isJoined == joined
      ensures utype == if joined || !old(isJoined) then old(utype) else Chigua
    {
      if isJoined == joined {
        return;
      }
      isJoined := joined;
      if joined {
        chat.list.AddUser(this);
      } else {
        chat.list.RmUser(this);
      }
      chat.RowsKept(this);
      chat.CountKept(this);
    }
  }

  // Where a user is in a list.
  ghost function Place(us: seq<SrnChatUser>, u: SrnChatUser): (k: nat)
    requires u in us
    ensures k < |us| && us[k] == u
  {
    var k :| 0 <= k < |us| && us[k] == u;
    k
  }

  function Weights(us: seq<SrnChatUser>): seq<Stat>
    reads us
  {
    seq(|us|, i requires 0 <= i < |us| reads us => us[i].Weight())
  }

  // ----------------------------------------------------------- server users

  class SrnServerUser {
    var nick: string
    var isMe: bool
    var isOnline: bool
    var chatUsers: seq<SrnChatUser>

    constructor (nick: string)
      ensures this.nick == nick && !isMe && !isOnline && chatUsers == []
    {
      this.nick, isMe, isOnline, chatUsers := nick, false, false, [];
    }

    // Refuses a second user of the same chat.
    method Attach(cu: SrnChatUser) returns (ok: bool)
      modifies this`chatUsers
      ensures ok == (forall v <- old(chatUsers) :: v.chat != cu.chat)
      ensures chatUsers == if ok then old(chatUsers) + [cu] else old(chatUsers)
    {
      for i := 0 to |chatUsers|
        invariant chatUsers == old(chatUsers) && forall j | 0 <= j < i :: chatUsers[j].chat != cu.chat
      {
        if chatUsers[i].chat == cu.chat {
          assert chatUsers[i] in old(chatUsers);
          return false;
        }
      }
      chatUsers := chatUsers + [cu];
      return true;
    }

    method Detach(cu: SrnChatUser) returns (ok: bool)
      modifies this`chatUsers
      ensures ok == (cu in old(chatUsers)) && chatUsers == Without(old(chatUsers), cu)
    {
      var j := LinkOf(chatUsers, cu, 0);
      ok := j < |chatUsers|;
      if ok {
        chatUsers := chatUsers[..j] + chatUsers[j + 1..];
      }
    }
  }

  // The operators, with administrators and owners.
  const OPERATORS: set<UserType> := {FullOp, Admin, Owner}
  const EVERYBODY: set<UserType> := {Chigua, Voiced, HalfOp, FullOp, Admin, Owner}

  // Who is joined and has one of the types.
  ghost function Picked(us: seq<SrnChatUser>, types: set<UserType>): set<SrnChatUser>
    reads us
  {
    set cu | cu in us && cu.isJoined && cu.utype in types
  }

  ghost function CountOf(us: seq<SrnChatUser>, types: set<UserType>): nat
    reads us
  {
    |Picked(us, types)|
  }

  lemma {:induction false} OneMoreCounted(us: seq<SrnChatUser>, cu: SrnChatUser, types: set<UserType>)
    requires cu !in us
    ensures CountOf(us + [cu], types) == CountOf(us, types) + if cu.isJoined && cu.utype in types then 1 else 0
  {
    var before, after := Picked(us, types), Picked(us + [cu], types);
    assert cu !in before;
    if cu.isJoined && cu.utype in types {
      assert after == before + {cu};
    } else {
      assert after == before;
    }
  }

  // Weights add up to how many there are of each.
  lemma {:induction false} CountsOf(us: seq<SrnChatUser>, n: nat)
    requires n <= |us| && forall i, j :: 0 <= i < j < |us| ==> us[i] != us[j]
    ensures var w, some := Sum(Weights(us), n), us[..n];
      && w.fullOp == CountOf(some, OPERATORS) && w.halfOp == CountOf(some, {HalfOp})
      && w.voiced == CountOf(some, {Voiced}) && w.total == CountOf(some, EVERYBODY)
  {
    hide CountOf;
    if n == 0 {
      NobodyCounted();
    } else {
      CountsOf(us, n - 1);
      var cu := us[n - 1];
      assert us[..n] == us[..n - 1] + [cu];
      OneMoreCounted(us[..n - 1], cu, OPERATORS);
      OneMoreCounted(us[..n - 1], cu, {HalfOp});
      OneMoreCounted(us[..n - 1], cu, {Voiced});
      OneMoreCounted(us[..n - 1], cu, EVERYBODY);
    }
  }

  lemma NobodyCounted()
    ensures forall types: set<UserType> :: CountOf([], types) == 0
  {
    forall types: set<UserType> ensures CountOf([], types) == 0 {
      assert Picked([], types) == {};
    }
  }

  // The first link that holds u, from k on.
  function LinkOf(us: seq<SrnChatUser>, u: SrnChatUser, k: nat): (j: nat)
    requires k <= |us|
    ensures k <= j <= |us| && (j < |us| ==> us[j] == u) && (j == |us| ==> forall i | k <= i < |us| :: us[i] != u)
    decreases |us| - k
  {
    if k == |us| || us[k] == u then k else LinkOf(us, u, k + 1)
  }

  // The list without that link.
  function Without(us: seq<SrnChatUser>, u: SrnChatUser): seq<SrnChatUser> {
    var j := LinkOf(us, u, 0);
    if j == |us| then us else us[..j] + us[j + 1..]
  }

  lemma {:induction false} WithoutIs(us: seq<SrnChatUser>, u: SrnChatUser)
    requires forall i, j | 0 <= i < j < |us| :: us[i].chat != us[j].chat
    ensures var ws := Without(us, u);
      && (forall v <- ws :: v in us && v != u) && (forall v <- us | v != u :: v in ws)
      && (forall i, j | 0 <= i < j < |ws| :: ws[i].chat != ws[j].chat)
  {
    var ws, k := Without(us, u), LinkOf(us, u, 0);
    if k < |us| {
      assert forall i | 0 <= i < |ws| :: ws[i] == us[if i < k then i else i + 1];
      forall v <- us | v != u ensures v in ws {
        var i :| 0 <= i < |us| && us[i] == v;
        assert ws[if i < k then i else i - 1] == v;
      }
    }
  }

  // ------------------------------------------------------------------ chats

  datatype ChatKind = ServerChat | Channel | Dialog

  class SrnChat {
    const srv: SrnServer
    const name: string
    const kind: ChatKind
    const list: SuiUserList
    var isJoined: bool
    var userList: seq<SrnChatUser>
    var user: SrnChatUser?

    constructor (srv: SrnServer, name: string, kind: ChatKind)
      ensures this.srv == srv && this.name == name && this.kind == kind && !isJoined && userList == []
      ensures fresh(list) && View()
    {
      this.srv, this.name, this.kind := srv, name, kind;
      list := new SuiUserList();
      isJoined, userList, user := false, [], null;
    }

    // No user is listed twice, and the rows are the users that are joined.
    ghost predicate Rows()
      reads this`userList, list, userList
    {
      && (forall i, j :: 0 <= i < j < |userList| ==> userList[i] != userList[j])
      && (forall u <- userList :: u.chat == this && u.EntryFits())
      && (forall u <- userList :: u.isJoined ==> HasRow(list.rows, u))
      && (forall r <- list.rows :: r.user in userList && r.user.isJoined && r.shown == r.user.utype)
      && OneRowEach(list.rows)
      && (kind.ServerChat? ==> forall u <- userList :: !u.isJoined)
    }

    // The counters agree with a count of the rows, and of the users.
    ghost predicate Counted()
      reads this`userList, list, userList
    {
      && list.stat == RowStat(list.rows)
      && list.stat == Sum(Weights(userList), |userList|)
    }

    ghost predicate View()
      reads this`userList, list, userList
    {
      Rows() && Counted()
    }

    // Nobody is joined.
    predicate Empty()
      reads this`userList, userList`isJoined
    {
      forall cu <- userList :: !cu.isJoined
    }

    // Whether a server user is in the chat.
    ghost predicate Holds(su: SrnServerUser)
      reads this`userList
    {
      exists cu <- userList :: cu.srvUser == su
    }

    method HasUser(su: SrnServerUser) returns (found: bool)
      ensures found == Holds(su)
    {
      for i := 0 to |userList|
        invariant forall j | 0 <= j < i :: userList[j].srvUser != su
      {
        if userList[i].srvUser == su {
          return true;
        }
      }
      return false;
    }

    /** Adds a server user, unless it is there. */
    method AddUser(su: SrnServerUser) returns (ok: bool)
      requires srv.Linked() && this in srv.chats && su in srv.users && View()
      modifies this`userList, su`chatUsers, srv`members
      ensures srv.Linked() && View() && Holds(su) && ok == !old(Holds(su))
      ensures old(srv.members) <= srv.members && fresh(srv.members - old(srv.members))
      ensures forall cu <- userList :: cu in old(userList) || cu in srv.members
      ensures if ok then Grown(su) else userList == old(userList) && su.chatUsers == old(su.chatUsers)
    {
      hide View, SrnServer.Linked;
      var found := HasUser(su);
      if found {
        return false;
      }
      NewUser(su);
      return true;
    }

    // Finds the first user with that nick, whatever its case.
    method GetUser(nick: string) returns (cu: SrnChatUser?)
      ensures cu == null ==> forall v <- userList :: !SameName(v.srvUser.nick, nick)
      ensures cu != null ==> cu in userList && SameName(cu.srvUser.nick, nick)
      ensures srv.Look() == old(srv.Look())
    {
      for i := 0 to |userList|
        invariant forall j | 0 <= j < i :: !SameName(userList[j].srvUser.nick, nick)
      {
        if SameName(userList[i].srvUser.nick, nick) {
          return userList[i];
        }
      }
      return null;
    }

    /** The chat user that is found is the one of the server user: no other user's
      * nick is the same but for case. */
    method AddAndGetUser(su: SrnServerUser) returns (cu: SrnChatUser)
      requires srv.Base() && this in srv.chats && su in srv.users
      modifies this`userList, su`chatUsers, srv`members
      ensures srv.Base() && cu in userList && cu.srvUser == su && cu.chat == this
      ensures old(srv.members) <= srv.members && fresh(srv.members - old(srv.members))
      ensures old(userList) <= userList && if old(Holds(su)) then userList == old(userList) else Grown(su)
    {
      hide SrnServer.Tabled, SrnServer.InChat, SrnServer.OfUser, Rows, Counted;
      var _ := AddUser(su);
      srv.ViewsGrow(this);
      cu := UserOf(su);
    }

    // Looks a server user up by its nick.
    method UserOf(su: SrnServerUser) returns (cu: SrnChatUser)
      requires srv.Linked() && srv.Distinct() && this in srv.chats && su in srv.users && Holds(su)
      ensures cu in userList && cu.srvUser == su && cu.chat == this
    {
      SameNameBack(su.nick, su.nick);
      var found := GetUser(su.nick);
      assert found != null;
      assert srv.InChat(this);
      cu := found;
    }

    // The list has a new user at its end.
    twostate predicate Grown(su: SrnServerUser)
      reads this, userList
    {
      && |userList| == |old(userList)| + 1 && userList[..|old(userList)|] == old(userList)
      && var cu := userList[|old(userList)|];
      && fresh(cu) && !cu.isJoined && cu.srvUser == su && cu.chat == this
    }

    /** The server user never refuses its new chat user. */
    method NewUser(su: SrnServerUser)
      requires srv.Linked() && this in srv.chats && su in srv.users && View() && !Holds(su)
      modifies this`userList, su`chatUsers, srv`members
      ensures srv.Linked() && View() && Grown(su) && srv.members == old(srv.members) + {userList[|old(userList)|]}
      ensures fresh(srv.members - old(srv.members))
    {
      var cu := new SrnChatUser(this, su);
      NotAttached(su);
      var attached := su.Attach(cu);
      assert attached;
      userList := userList + [cu];
      srv.members := srv.members + {cu};
      RowsGrow(cu);
      CountGrows(cu);
      LinkedGrows(su, cu);
    }

    // A user is added that is not joined.
    twostate lemma {:induction false} RowsGrow(new cu: SrnChatUser)
      requires old(Rows()) && userList == old(userList) + [cu] && cu !in old(userList)
      requires list.rows == old(list.rows) && forall v <- old(userList) :: Same(v)
      requires cu.chat == this && cu.EntryFits() && !cu.isJoined
      ensures Rows()
    {
    }

    twostate lemma {:induction false} CountGrows(new cu: SrnChatUser)
      requires old(Counted()) && userList == old(userList) + [cu]
      requires list.rows == old(list.rows) && list.stat == old(list.stat)
      requires !cu.isJoined && forall v <- old(userList) :: Same(v)
      ensures Counted()
    {
      hide RowStat;
      var n := |old(userList)|;
      forall i | 0 <= i < n ensures Weights(userList)[i] == old(Weights(userList))[i] {
        assert userList[i] in old(userList);
      }
      SumSame(old(Weights(userList)), Weights(userList), n);
    }

    // A user is added on both sides.
    twostate lemma {:induction false} LinkedGrows(su: SrnServerUser, new cu: SrnChatUser)
      requires old(srv.Linked()) && srv.chats == old(srv.chats) && srv.users == old(srv.users)
      requires this in srv.chats && su in srv.users && !old(Holds(su)) && cu.chat == this && cu.srvUser == su
      requires userList == old(userList) + [cu] && su.chatUsers == old(su.chatUsers) + [cu]
      requires forall c <- old(srv.chats) | c != this :: c.userList == old(c.userList)
      requires forall u <- old(srv.users) | u != su :: u.chatUsers == old(u.chatUsers)
      ensures srv.Linked()
    {
      forall c <- srv.chats ensures srv.InChat(c) {
        assert old(srv.InChat(c));
      }
      forall u <- srv.users ensures srv.OfUser(u) {
        assert old(srv.OfUser(u));
      }
    }

    // What is left of a list when the first n users of this chat are taken out.
    ghost predicate Left(us: seq<SrnChatUser>, was: seq<SrnChatUser>, n: nat)
      requires n <= |userList|
      reads this
    {
      && (forall cu <- us :: cu in was && cu !in userList[..n])
      && (forall cu <- was :: cu in userList[..n] || cu in us)
      && (forall i, j :: 0 <= i < j < |us| ==> us[i].chat != us[j].chat)
    }

    ghost predicate AllLeft(was: map<SrnServerUser, seq<SrnChatUser>>, n: nat)
      requires n <= |userList|
      reads this, srv, srv.users
    {
      forall u <- srv.users :: u in was && Left(u.chatUsers, was[u], n)
    }

    /** Frees the chat and its users; every one of them is taken from its server
      * user first. */
    method Free()
      requires srv.Linked() && this in srv.chats
      modifies srv`chats, srv.users`chatUsers
      ensures srv.chats == old(srv.chats) - {this} && srv.Linked()
    {
      ghost var was := map u | u in srv.users :: u.chatUsers;
      for n := 0 to |userList|
        invariant srv.chats == old(srv.chats) && AllLeft(was, n)
      {
        assert old(srv.InChat(this));
        FreeUser(n, was);
      }
      srv.chats := srv.chats - {this};
      srv.LinkedShrinks(this);
    }

    method FreeUser(n: nat, ghost was: map<SrnServerUser, seq<SrnChatUser>>)
      requires n < |userList| && userList[n].srvUser in srv.users && AllLeft(was, n)
      requires userList[n] in was[userList[n].srvUser]
      requires forall u <- srv.users, cu <- was[u] :: cu.srvUser == u
      requires forall i, j :: 0 <= i < j < |userList| ==> userList[i].srvUser != userList[j].srvUser
      modifies userList[n].srvUser`chatUsers
      ensures AllLeft(was, n + 1)
    {
      var cu := userList[n];
      WithoutIs(cu.srvUser.chatUsers, cu);
      var ok := cu.srvUser.Detach(cu);
      assert ok;
      assert userList[..n + 1] == userList[..n] + [cu];
    }

    lemma NotAttached(su: SrnServerUser)
      requires srv.Linked() && this in srv.chats && su in srv.users && !Holds(su)
      ensures forall v <- su.chatUsers :: v.chat != this
    {
      assert srv.OfUser(su);
    }

    // Nothing but u has changed, and its row and the counters have followed.
    twostate lemma {:induction false} RowsKept(u: SrnChatUser)
      requires old(Rows()) && u in userList && userList == old(userList)
      requires forall v <- userList | v != u :: Same(v)
      requires OthersKept(old(list.rows), list.rows, u) && OneRowEach(list.rows)
      requires u.EntryFits() && (u.isJoined ==> Row(u, u.utype) in list.rows) && (!u.isJoined ==> !HasRow(list.rows, u))
      requires kind.ServerChat? ==> !u.isJoined
      ensures Rows()
    {
      forall r <- list.rows ensures r.user in userList && r.user.isJoined && r.shown == r.user.utype {
        if r.user != u {
          assert r in old(list.rows);
        }
      }
      forall v <- userList | v.isJoined ensures HasRow(list.rows, v) {
        if v != u {
          var k :| 0 <= k < |old(list.rows)| && old(list.rows)[k].user == v;
          assert old(list.rows)[k] in list.rows;
        }
      }
    }

    twostate lemma {:induction false} CountKept(u: SrnChatUser)
      requires old(View()) && u in userList && userList == old(userList)
      requires forall v <- userList | v != u :: Same(v)
      requires list.stat == RowStat(list.rows)
      requires list.stat == Plus(Minus(old(list.stat), old(u.Weight())), u.Weight())
      ensures Counted()
    {
      var k := Place(userList, u);
      forall i | 0 <= i < |userList| && i != k ensures Weights(userList)[i] == old(Weights(userList))[i] {
        assert userList[i] in userList && userList[i] != u;
      }
      SumUpdate(old(Weights(userList)), Weights(userList), k, |userList|);
    }
  }

  // ---------------------------------------------------------------- servers

  // --------------------------------------------------------------- pictures

  /** What a server looks like: its chats, which are listed, who is in their lists and
    * whether the program has joined them; and its users, with their nicks, and whether
    * they are online; and what everybody is in which chat. */
  datatype Picture = Picture(listed: seq<SrnChat>, own: SrnChat?, chats: map<SrnChat, (seq<SrnChatUser>, bool)>,
                             users: map<SrnServerUser, (string, bool)>, members: map<SrnChatUser, (UserType, bool)>)

  ghost predicate KeepsChat(a: Picture, b: Picture, c: SrnChat) {
    c in a.chats && c in b.chats && a.chats[c] == b.chats[c]
  }

  // Listed chats of other names stay as they are.
  ghost predicate KeepsOthers(a: Picture, b: Picture, name: string) {
    forall c <- a.listed | !SameName(c.name, name) :: c in b.listed && KeepsChat(a, b, c)
  }

  // The server's own chat stays as it is.
  ghost predicate KeepsOwn(a: Picture, b: Picture) {
    a.own == b.own && (a.own != null ==> KeepsChat(a, b, a.own))
  }

  // All chats but one stay as they are.
  ghost predicate KeepsRest(a: Picture, b: Picture, c: SrnChat) {
    && a.own == b.own && (forall d <- a.chats | d != c :: KeepsChat(a, b, d))
    && (forall d <- a.listed | d != c :: d in b.listed)
  }

  // Nobody goes or changes its nick, nor comes or goes online but for one.
  ghost predicate KeepsUsers(a: Picture, b: Picture, but: Option<string>) {
    forall u <- a.users ::
      u in b.users && b.users[u].0 == a.users[u].0 && (Some(a.users[u].0) != but ==> b.users[u].1 == a.users[u].1)
  }

  // Whom a change may concern: nobody, or those of a user, of a chat, or of both.
  datatype Whom = Nobody | Those(user: SrnServerUser?, chat: SrnChat?)
  {
    predicate Has(cu: SrnChatUser) {
      Those? && (user == null || cu.srvUser == user) && (chat == null || cu.chat == chat)
    }
  }

  ghost predicate KeepsMember(a: Picture, b: Picture, cu: SrnChatUser) {
    cu in a.members && cu in b.members && b.members[cu] == a.members[cu]
  }

  // Nobody else joins, leaves, or changes its type.
  ghost predicate KeepsMembers(a: Picture, b: Picture, whom: Whom) {
    forall cu <- a.members | !whom.Has(cu) :: KeepsMember(a, b, cu)
  }

  // Nobody joins or leaves.
  ghost predicate KeepsPresence(a: Picture, b: Picture) {
    forall cu <- a.members :: cu in b.members && b.members[cu].1 == a.members[cu].1
  }

  lemma PresenceThrough(a: Picture, b: Picture, c: Picture)
    ensures KeepsMembers(a, b, Nobody) ==> KeepsPresence(a, b)
    ensures KeepsMembers(b, c, Nobody) ==> KeepsPresence(b, c)
    ensures KeepsPresence(a, b) && KeepsPresence(b, c) ==> KeepsPresence(a, c)
  {
  }

  lemma KeepsMembersThrough(a: Picture, b: Picture, c: Picture, v: Whom, w: Whom)
    requires KeepsMembers(a, b, v) && KeepsMembers(b, c, w)
    ensures v.Nobody? ==> KeepsMembers(a, c, w)
    ensures w.Nobody? ==> KeepsMembers(a, c, v)
    ensures v == w ==> KeepsMembers(a, c, v)
  {
  }

  // The chats that are listed, and the server's own, are among the chats.
  ghost predicate Sane(a: Picture) {
    (forall c <- a.listed :: c in a.chats) && (a.own != null ==> a.own in a.chats && a.own !in a.listed)
  }

  // Only one chat changes, and in it only those; whether it is joined stays if `calm`.
  ghost predicate Within(a: Picture, b: Picture, c: SrnChat, whom: Whom, calm: bool) {
    && KeepsRest(a, b, c) && KeepsList(a, b) && KeepsUsers(a, b, None) && KeepsMembers(a, b, whom)
    && a.chats.Keys == b.chats.Keys && (calm ==> KeepsJoined(a, b))
  }

  lemma WithinThrough(a: Picture, b: Picture, d: Picture, c: SrnChat, v: Whom, w: Whom, calm: bool)
    requires Within(a, b, c, v, calm) && Within(b, d, c, w, calm)
    ensures v.Nobody? ==> Within(a, d, c, w, calm)
    ensures w.Nobody? || v == w ==> Within(a, d, c, v, calm)
  {
    KeepsUsersThrough(a, b, d, None);
    KeepsMembersThrough(a, b, d, v, w);
  }

  lemma WithinWider(a: Picture, b: Picture, c: SrnChat, v: Whom, w: Whom, calm: bool, still: bool)
    requires Within(a, b, c, v, calm) && (still ==> calm)
    requires v.Those? ==> w.Those? && (w.user == null || w.user == v.user) && (w.chat == null || w.chat == v.chat)
    ensures Within(a, b, c, w, still)
  {
  }

  lemma NobodyWithin(a: Picture, b: Picture, c: SrnChat, calm: bool)
    requires Within(a, b, c, Those(null, c), calm) && KeepsMembers(a, b, Nobody)
    ensures Within(a, b, c, Nobody, calm)
  {
  }

  // Users are added.
  lemma UsersWithin(a: Picture, b: Picture, c: SrnChat)
    requires Sane(a) && b == a.(users := b.users) && KeepsUsers(a, b, None)
    ensures Within(a, b, c, Nobody, true)
  {
  }

  lemma NothingWithin(a: Picture, c: SrnChat, whom: Whom, calm: bool)
    requires Sane(a)
    ensures Within(a, a, c, whom, calm)
  {
  }

  // Members change.
  lemma MembersWithin(a: Picture, b: Picture, c: SrnChat, whom: Whom)
    requires Sane(a) && b == a.(members := b.members) && KeepsMembers(a, b, whom)
    ensures Within(a, b, c, whom, true)
  {
  }

  // Only chats of that name change, and in them only those of the user, if there is one;
  // users stay, but for who comes or goes online.
  ghost predicate Near(a: Picture, b: Picture, name: string, user: SrnServerUser?, but: Option<string>) {
    && KeepsOthers(a, b, name) && KeepsOwn(a, b) && KeepsUsers(a, b, but)
    && forall cu <- a.members | (user != null && cu.srvUser != user) || !SameName(cu.chat.name, name) ::
         KeepsMember(a, b, cu)
  }

  lemma WithinIsNear(a: Picture, b: Picture, c: SrnChat, whom: Whom, calm: bool, name: string)
    requires Within(a, b, c, whom, calm) && Sane(a) && c in a.listed && SameName(c.name, name)
    requires whom.Those? ==> whom.chat == c
    ensures Near(a, b, name, if whom.Those? then whom.user else null, None)
    ensures forall user | whom.Nobody? :: Near(a, b, name, user, None)
    ensures KeepsList(a, b) && (calm ==> KeepsJoined(a, b))
  {
  }

  lemma NearParts(a: Picture, b: Picture, name: string, user: SrnServerUser?, but: Option<string>)
    requires Near(a, b, name, user, but)
    ensures KeepsOthers(a, b, name) && KeepsOwn(a, b) && KeepsUsers(a, b, but)
  {
  }

  // The chats that were listed stay as they are.
  ghost predicate KeepsListed(a: Picture, b: Picture) {
    forall c <- a.listed :: KeepsChat(a, b, c)
  }

  lemma OwnParts(a: Picture, b: Picture, c: SrnChat)
    requires Within(a, b, c, Nobody, true) && Sane(a) && a.own == c
    ensures KeepsListed(a, b) && KeepsList(a, b) && KeepsJoined(a, b) && KeepsUsers(a, b, None)
    ensures KeepsMembers(a, b, Nobody)
  {
  }

  // What was added stays, and what happened in one chat happened in that one.
  lemma AddedThenWithin(a: Picture, b: Picture, d: Picture, e: Picture, c: SrnChat, name: string)
    requires Sane(a) && b == a.(users := b.users) && KeepsUsers(a, b, None)
    requires KeepsAll(b, d) && KeepsUsers(b, d, None) && KeepsMembers(b, d, Nobody)
    requires Within(d, e, c, Nobody, true) && Sane(d)
    ensures KeepsUsers(a, e, None) && KeepsMembers(a, e, Nobody) && KeepsJoined(a, e)
    ensures a.listed <= e.listed == d.listed
    ensures c in d.listed && SameName(c.name, name) ==> KeepsOthers(a, e, name) && KeepsOwn(a, e)
    ensures (c == d.own ==> KeepsListed(a, e)) && (d == b ==> KeepsList(a, e))
  {
  }

  // First something happened in the server's own chat, and then in those of that name.
  lemma OwnThenOthers(a: Picture, b: Picture, d: Picture, c: SrnChat, name: string)
    requires Within(a, b, c, Nobody, true) && Sane(a) && a.own == c && KeepsOthers(b, d, name)
    requires KeepsList(b, d) && KeepsJoined(b, d) && KeepsUsers(b, d, None) && KeepsMembers(b, d, Nobody)
    ensures KeepsOthers(a, d, name) && KeepsList(a, d) && KeepsJoined(a, d) && KeepsUsers(a, d, None)
    ensures KeepsMembers(a, d, Nobody)
  {
  }

  lemma KnownThenAdded(a: Picture, b: Picture, d: Picture)
    requires b == a.(users := b.users) && KeepsUsers(a, b, None)
    requires KeepsAll(b, d) && KeepsUsers(b, d, None) && KeepsMembers(b, d, Nobody)
    ensures KeepsAll(a, d) && KeepsUsers(a, d, None) && KeepsMembers(a, d, Nobody)
  {
  }

  lemma NobodyElse(a: Picture, b: Picture, c: SrnChat)
    requires Within(a, b, c, Nobody, true)
    ensures KeepsMembers(a, b, Nobody)
  {
  }

  // Nothing changes.
  lemma NothingIsNear(a: Picture, name: string, user: SrnServerUser?, but: Option<string>)
    requires Sane(a)
    ensures Near(a, a, name, user, but) && KeepsList(a, a) && KeepsJoined(a, a)
  {
  }

  // Chats and users are added, and then something happens to the chats of that name.
  lemma AddedThen(a: Picture, b: Picture, d: Picture, name: string, user: SrnServerUser?)
    requires Sane(a) && KeepsAll(a, b) && KeepsUsers(a, b, None) && KeepsMembers(a, b, Nobody)
    requires Near(b, d, name, user, None) && KeepsList(b, d)
    ensures Near(a, d, name, user, None) && a.listed <= d.listed
  {
  }

  // A user comes online, and then something happens to the chats of that name.
  lemma OnlineThen(a: Picture, b: Picture, d: Picture, nick: string, name: string, user: SrnServerUser?)
    requires Sane(a) && b == a.(users := b.users) && KeepsUsers(a, b, Some(nick))
    requires Near(b, d, name, user, None)
    ensures Near(a, d, name, user, Some(nick)) && (KeepsJoined(b, d) ==> KeepsJoined(a, d))
    ensures a.listed == b.listed && (KeepsList(b, d) ==> KeepsList(a, d))
  {
  }

  lemma SameList(a: Picture, b: Picture)
    requires KeepsList(a, b)
    ensures a.listed <= b.listed
  {
  }

  lemma SameUsers(a: Picture, b: Picture, but: Option<string>)
    requires a.users == b.users
    ensures KeepsUsers(a, b, but)
  {
  }

  lemma SomeUser(a: Picture, b: Picture, c: Picture, nick: string)
    requires KeepsUsers(a, b, None) && KeepsUsers(b, c, Some(nick))
    ensures KeepsUsers(a, c, Some(nick))
  {
  }

  lemma KeepsUsersThrough(a: Picture, b: Picture, c: Picture, but: Option<string>)
    requires KeepsUsers(a, b, but) && KeepsUsers(b, c, None)
    ensures KeepsUsers(a, c, but)
  {
  }

  // Whether the program has joined them does not change for the listed chats.
  ghost predicate KeepsJoined(a: Picture, b: Picture) {
    forall c <- a.listed :: c in a.chats && c in b.chats && b.chats[c].1 == a.chats[c].1
  }

  // The list is the same, and the server's own chat.
  ghost predicate KeepsList(a: Picture, b: Picture) {
    a.listed == b.listed && a.own == b.own
  }

  // Chats are only added.
  ghost predicate KeepsAll(a: Picture, b: Picture) {
    a.own == b.own && a.listed <= b.listed && forall c <- a.chats :: KeepsChat(a, b, c)
  }

  class SrnServer {
    const name: string
    const irc: SircSession
    var userTable: map<string, SrnServerUser>
    var user: SrnServerUser
    var anonymous: SrnServerUser
    var chatList: seq<SrnChat>
    var chat: SrnChat?

    // The chats and the users that have not been freed.
    ghost var chats: set<SrnChat>
    ghost var users: set<SrnServerUser>

    // The user lists and the chat users that there are or were.
    ghost var lists: set<SuiUserList>
    ghost var members: set<SrnChatUser>

    constructor (name: string, nick: string, irc: SircSession)
      requires nick != ""
      ensures this.name == name && this.irc == irc && chats == {} && chatList == [] && chat == null
      ensures Base() && users == {anonymous, user} && anonymous.nick == "" && user.nick == nick
      ensures fresh(users) && lists == {} && members == {}
    {
      this.name, this.irc := name, irc;
      var nobody := new SrnServerUser("");
      var me := new SrnServerUser(nick);
      me.isMe := true;
      anonymous, user := nobody, me;
      userTable := map["" := nobody, nick := me];
      chatList, chat := [], null;
      chats, users := {}, {nobody, me};
      lists, members := {}, {};
      new;
      NobodyYet();
    }

    lemma NobodyYet()
      requires users == {anonymous, user} && anonymous.nick == "" && user.nick != "" && user.isMe && !anonymous.isMe
      requires userTable == map["" := anonymous, user.nick := user]
      requires user.chatUsers == anonymous.chatUsers == [] && chats == {}
      ensures Base()
    {
      assert OfUser(user) && OfUser(anonymous);
    }

    // The table knows every user by its nick.
    ghost predicate Tabled()
      reads this`userTable, this`users, this`user, this`anonymous, users`nick, users`isMe
    {
      && (forall n <- userTable :: userTable[n] in users && userTable[n].nick == n)
      && (forall u <- users :: u.nick in userTable && userTable[u.nick] == u)
      && user in users && anonymous in users && (forall u <- users :: u.isMe <==> u == user)
    }

    // No two nicks differ in case only.
    ghost predicate Distinct()
      reads this`users, users`nick
    {
      forall u, v {:trigger SameName(u.nick, v.nick)} | u in users && v in users && u != v :: !SameName(u.nick, v.nick)
    }

    // The chats are those in the list and the server's own.
    ghost predicate Listed()
      reads this`chatList, this`chat, this`chats
    {
      && (forall c <- chatList :: c in chats && !c.kind.ServerChat?)
      && (chat != null ==> chat in chats && chat.kind.ServerChat?)
      && (forall c <- chats :: c in chatList || c == chat)
      && (forall i, j | 0 <= i < j < |chatList| ::
            chatList[i] != chatList[j] && !SameName(chatList[i].name, chatList[j].name))
    }

    // The same but for one chat, which is not in the list.
    ghost predicate ListedBut(c: SrnChat)
      reads this`chatList, this`chat, this`chats
    {
      && (forall d <- chatList :: d in chats && !d.kind.ServerChat? && d != c)
      && (chat != null ==> chat in chats && chat.kind.ServerChat? && chat != c)
      && (forall d <- chats :: d != c ==> d in chatList || d == chat)
      && (forall i, j | 0 <= i < j < |chatList| ::
            chatList[i] != chatList[j] && !SameName(chatList[i].name, chatList[j].name))
    }

    // Every chat shows its users in a list of its own.
    ghost predicate Views()
      reads this`chats, this`lists, this`members, chats`userList, lists, members
    {
      && (forall c <- chats :: Holds(c) && c.View())
      && (forall c, d {:trigger c.list, d.list} | c in chats && d in chats && c != d :: c.list != d.list)
    }

    ghost predicate Holds(c: SrnChat)
      reads this`lists, this`members, c`userList
    {
      c.srv == this && c.list in lists && forall cu <- c.userList :: cu in members
    }

    ghost predicate Base()
      reads this`chats, this`lists, this`members, chats`userList, lists, members
      reads this`userTable, this`users, this`user, this`anonymous, users`nick, users`isMe, users`chatUsers
    {
      Linked() && Tabled() && Distinct() && Views()
    }

    // All of it: what holds between two events.
    ghost predicate Whole()
      reads this`chats, this`lists, this`members, chats`userList, lists, members
      reads this`userTable, this`users, this`user, this`anonymous, users`nick, users`isMe, users`chatUsers
      reads this`chatList, this`chat, chats`user
    {
      Base() && Mine() && Listed()
    }

    /** A chat user is in the list of its chat just when it is in the list of its
      * server user, there is at most one for a chat and a server user, and nobody
      * refers to a chat or a user that was freed. */
    ghost predicate Linked()
      reads this`chats, this`users, chats`userList, users`chatUsers
    {
      (forall c <- chats :: InChat(c)) && (forall u <- users :: OfUser(u))
    }

    ghost predicate InChat(c: SrnChat)
      reads this`users, c`userList, users`chatUsers
    {
      && (forall cu <- c.userList :: cu.chat == c && cu.srvUser in users && cu in cu.srvUser.chatUsers)
      && (forall i, j :: 0 <= i < j < |c.userList| ==> c.userList[i].srvUser != c.userList[j].srvUser)
    }

    ghost predicate OfUser(u: SrnServerUser)
      reads this`chats, u`chatUsers, chats`userList
    {
      && (forall cu <- u.chatUsers :: cu.srvUser == u && cu.chat in chats && cu in cu.chat.userList)
      && (forall i, j :: 0 <= i < j < |u.chatUsers| ==> u.chatUsers[i].chat != u.chatUsers[j].chat)
    }

    // ------------------------------------------------ one user of one chat

    twostate predicate Intact(c: SrnChat)
      reads c`userList, c.list, c.userList
    {
      unchanged(c`userList) && unchanged(c.list) && forall v <- c.userList :: unchanged(v)
    }

    twostate lemma {:induction false} ViewKept(c: SrnChat)
      requires old(c.View()) && Intact(c)
      ensures c.View()
    {
      forall i | 0 <= i < |c.userList| ensures Weights(c.userList)[i] == old(Weights(c.userList))[i] {
        assert c.userList[i] in c.userList;
      }
      SumSame(old(Weights(c.userList)), Weights(c.userList), |c.userList|);
    }

    // Nothing that is shown by these chats has changed.
    twostate lemma {:induction false} ViewsOf(cs: set<SrnChat>)
      requires cs <= old(chats) && old(Views()) && forall c <- cs :: Intact(c)
      ensures forall c <- cs :: c.View()
    {
      forall c <- cs ensures c.View() {
        ViewKept(c);
      }
    }

    twostate lemma {:induction false} ViewsSame()
      requires old(Views()) && chats == old(chats) && forall c <- old(chats) :: Intact(c)
      requires lists == old(lists) && members == old(members)
      ensures Views()
    {
      ViewsOf(old(chats));
    }

    // Nothing but the users of one chat has changed.
    twostate lemma {:induction false} ViewsGrow(c: SrnChat)
      requires old(Views()) && chats == old(chats) && c in chats && c.View()
      requires lists == old(lists) && old(members) <= members && Holds(c)
      requires forall d <- old(chats) :: d != c ==> Intact(d)
      ensures Views()
    {
      ViewsOf(old(chats) - {c});
    }

    // Nothing but a chat user and the list of its chat has changed.
    twostate lemma {:induction false} ViewsKept(cu: SrnChatUser)
      requires old(Views()) && unchanged(this) && unchanged(chats)
      requires cu.chat in chats && cu.chat.View()
      requires forall c <- chats | c != cu.chat ::
                 unchanged(c.list) && forall v <- c.userList :: v != cu ==> unchanged(v)
      ensures Views()
    {
      forall c <- chats ensures c.View() {
        if c != cu.chat {
          assert old(c.Rows());
          assert forall v <- c.userList :: v.chat == c && v != cu && unchanged(v);
          ViewKept(c);
        }
      }
    }

    // Joins a user or takes it from its chat.
    method SetJoined(cu: SrnChatUser, joined: bool)
      requires Base() && cu.chat in chats && cu in cu.chat.userList && (cu.chat.kind.ServerChat? ==> !joined)
      modifies cu`utype, cu`isJoined, cu`uiType, cu`uiList, cu`uiStat, cu.chat.list
      ensures Base() && cu.isJoined == joined
    {
      hide Linked, Tabled, Distinct, InChat, OfUser;
      cu.SetIsJoined(joined);
      ViewsKept(cu);
    }

    method SetType(cu: SrnChatUser, t: UserType)
      requires Base() && cu.chat in chats && cu in cu.chat.userList
      modifies cu`utype, cu`uiType, cu.chat.list
      ensures Base() && cu.utype == t
    {
      hide Linked, Tabled, Distinct, InChat, OfUser, SrnChat.View;
      cu.SetType(t);
      ViewsKept(cu);
    }

    // ------------------------------------------------------- users by nick

    method GetUser(nick: string) returns (u: SrnServerUser?)
      ensures (if nick in userTable then u == userTable[nick] else u == null) && Look() == old(Look())
    {
      u := if nick in userTable then userTable[nick] else null;
    }

    // No known nick differs from this one in case only.
    ghost predicate Consistent(nick: string)
      reads this`users, users`nick
    {
      forall u {:trigger SameName(u.nick, nick)} | u in users :: SameName(u.nick, nick) ==> u.nick == nick
    }

    method AddAndGetUser(nick: string) returns (u: SrnServerUser)
      requires Base() && Consistent(nick)
      modifies this`userTable, this`users
      ensures Base() && u in users && u.nick == nick && users == old(users) + {u}
      ensures u !in old(users) ==> fresh(u) && !u.isOnline
    {
      var known := GetUser(nick);
      if known != null {
        return known;
      }
      u := NewUser(nick);
      LinkedWithNew(u);
      TabledWithNew(u);
      DistinctWithNew(u);
      ViewsSame();
    }

    method NewUser(nick: string) returns (u: SrnServerUser)
      modifies this`userTable, this`users
      ensures fresh(u) && u.nick == nick && !u.isMe && !u.isOnline && u.chatUsers == []
      ensures userTable == old(userTable)[nick := u] && users == old(users) + {u}
    {
      u := new SrnServerUser(nick);
      userTable := userTable[nick := u];
      users := users + {u};
    }

    twostate lemma {:induction false} TabledWithNew(new u: SrnServerUser)
      requires old(Tabled()) && u !in old(users) && users == old(users) + {u} && user == old(user)
      requires anonymous == old(anonymous)
      requires u.nick !in old(userTable) && userTable == old(userTable)[u.nick := u] && !u.isMe
      requires forall v <- old(users) :: v.nick == old(v.nick) && v.isMe == old(v.isMe)
      ensures Tabled()
    {
    }

    twostate lemma {:induction false} DistinctWithNew(new u: SrnServerUser)
      requires old(Distinct()) && old(Tabled()) && users == old(users) + {u} && u.nick !in old(userTable)
      requires forall v <- old(users) :: v.nick == old(v.nick) && (SameName(v.nick, u.nick) ==> v.nick == u.nick)
      ensures Distinct()
    {
      forall v <- old(users) ensures !SameName(v.nick, u.nick) && !SameName(u.nick, v.nick) {
        SameNameBack(u.nick, v.nick);
      }
    }

    // A user that is in no chat yet.
    twostate lemma {:induction false} LinkedWithNew(new u: SrnServerUser)
      requires old(Linked()) && chats == old(chats) && users == old(users) + {u} && u.chatUsers == []
      requires forall c <- old(chats) :: c.userList == old(c.userList)
      requires forall v <- old(users) :: v.chatUsers == old(v.chatUsers)
      ensures Linked()
    {
      forall c <- chats ensures InChat(c) {
        assert old(InChat(c));
      }
      forall v <- users ensures OfUser(v) {
        assert v in old(users) ==> old(OfUser(v));
      }
    }

    // The table after u has gone from one nick to another.
    function Renamed(table: map<string, SrnServerUser>, from: string, u: SrnServerUser, to: string)
        : map<string, SrnServerUser>
    {
      (table - {from})[to := u]
    }

    /** Renaming loses nobody if and only if the new nick is free, or the user's own:
      * whoever had it would go from the table. */
    lemma {:induction false} RenameLosesNobodyIff(table: map<string, SrnServerUser>, from: string, to: string)
      requires from in table && forall n, m | n in table && m in table && n != m :: table[n] != table[m]
      ensures Renamed(table, from, table[from], to).Values == table.Values <==> (to == from || to !in table)
    {
      var u := table[from];
      var after := Renamed(table, from, u, to);
      if to == from || to !in table {
        forall v <- table.Values ensures v in after.Values {
          var n :| n in table && table[n] == v;
          assert after[if n == from then to else n] == v;
        }
      } else {
        assert table[to] in table.Values;
        forall n <- after ensures after[n] != table[to] {
        }
      }
    }

    // Whoever is in no chat is freed when another user takes over the nick.
    predicate Idle(v: SrnServerUser)
      reads this`user, this`anonymous, v`chatUsers
    {
      v.chatUsers == [] && v != user && v != anonymous
    }

    // Nobody else has the nick, or who has it can be spared.
    ghost predicate Replaceable(u: SrnServerUser, nick: string)
      reads this`users, users`nick, this`user, this`anonymous, users`chatUsers
    {
      forall v <- users | v != u && v.nick == nick :: Idle(v)
    }

    // Nobody else has a nick that differs from this one in case only.
    ghost predicate Cased(u: SrnServerUser, nick: string)
      reads this`users, users`nick
    {
      forall v <- users | v != u && SameName(v.nick, nick) :: v.nick == nick
    }

    // Who is freed by a rename.
    ghost function Displaced(u: SrnServerUser, nick: string): set<SrnServerUser>
      reads this`userTable, u`nick, userTable.Values`chatUsers
    {
      if u.nick in userTable && nick in userTable && nick != u.nick && userTable[nick].chatUsers == []
      then {userTable[nick]} else {}
    }

    /** Renames a user.  The invariant is kept if and only if nobody else has the nick,
      * or who has it is in no chat: a user who is in a chat would stay there and be in
      * the table no more. */
    method Rename(u: SrnServerUser, nick: string) returns (ok: bool)
      requires Base() && u in users && Cased(u, nick)
      modifies this`userTable, this`users, u`nick
      ensures u.nick == nick && ok == (nick == old(u.nick) || nick !in old(userTable))
      ensures Base() <==> old(Replaceable(u, nick))
      ensures users <= old(users) && forall v <- old(users) | v == u || v.chatUsers != [] :: v in users
    {
      assert Tabled();
      ok := ReplaceNick(u, nick);
      ViewsSame();
      if old(Replaceable(u, nick)) {
        TabledRenamed(u);
        DistinctRenamed(u);
        LinkedRenamed(u);
      } else {
        NotTabled(u);
      }
    }

    // Takes the user out of the table and puts it back under its new nick, where it
    // replaces whoever was there.
    method ReplaceNick(u: SrnServerUser, nick: string) returns (ok: bool)
      modifies this`userTable, this`users, u`nick
      ensures ok == (old(u.nick) in old(userTable) && (nick == old(u.nick) || nick !in old(userTable)))
      ensures old(u.nick) in old(userTable) ==>
        u.nick == nick && userTable == Renamed(old(userTable), old(u.nick), u, nick)
      ensures old(u.nick) !in old(userTable) ==> u.nick == old(u.nick) && userTable == old(userTable)
      ensures users == old(users) - old(Displaced(u, nick))
    {
      if u.nick !in userTable {
        return false;
      }
      userTable := userTable - {u.nick};
      u.nick := nick;
      ok := nick !in userTable;
      if !ok {
        FreeUser(userTable[nick]);
      }
      userTable := userTable[nick := u];
    }

    // A user who is in a chat is not freed.
    method FreeUser(v: SrnServerUser)
      modifies this`users
      ensures users == if v.chatUsers == [] then old(users) - {v} else old(users)
    {
      if v.chatUsers != [] {
        return;
      }
      users := users - {v};
    }

    // What ReplaceNick does to a user who is in the table.
    twostate predicate Renicked(u: SrnServerUser)
      reads this, users`nick, users`isMe, u
    {
      && user == old(user) && anonymous == old(anonymous) && u in old(users)
      && userTable == Renamed(old(userTable), old(u.nick), u, u.nick)
      && (var nick := u.nick; users == old(users) - old(Displaced(u, nick)))
      && forall v <- users :: v.isMe == old(v.isMe) && (v != u ==> v.nick == old(v.nick))
    }

    twostate predicate MayRename(u: SrnServerUser)
      reads u
    {
      var nick := u.nick; old(Replaceable(u, nick))
    }

    twostate lemma {:induction false} NickFree(u: SrnServerUser)
      requires old(Tabled()) && Renicked(u) && MayRename(u)
      ensures forall v <- users | v != u :: v.nick != u.nick
    {
      var nick := u.nick;
      forall v <- old(users) | v != u && old(v.nick) == nick ensures v !in users {
        assert old(userTable[nick]) == v && old(Idle(v));
      }
    }

    twostate lemma {:induction false} TabledRenamed(u: SrnServerUser)
      requires old(Tabled()) && Renicked(u) && MayRename(u)
      ensures Tabled()
    {
      NickFree(u);
    }

    twostate lemma {:induction false} DistinctRenamed(u: SrnServerUser)
      requires old(Tabled()) && Renicked(u) && MayRename(u)
      requires old(Distinct()) && var nick := u.nick; old(Cased(u, nick))
      ensures Distinct()
    {
      NickFree(u);
      forall v <- users | v != u ensures !SameName(u.nick, v.nick) && !SameName(v.nick, u.nick) {
        SameNameBack(u.nick, v.nick);
      }
    }

    twostate lemma {:induction false} LinkedRenamed(u: SrnServerUser)
      requires old(Linked()) && chats == old(chats) && var nick := u.nick; users == old(users) - old(Displaced(u, nick))
      requires forall c <- chats :: c.userList == old(c.userList)
      requires forall v <- old(users) :: v.chatUsers == old(v.chatUsers)
      ensures Linked()
    {
      forall c <- chats ensures InChat(c) {
        assert old(InChat(c));
      }
      forall v <- users ensures OfUser(v) {
        assert old(OfUser(v));
      }
    }

    // Somebody else has the nick still, or was needed.
    twostate lemma {:induction false} NotTabled(u: SrnServerUser)
      requires old(Tabled()) && Renicked(u) && !MayRename(u)
      ensures !Tabled()
    {
      var nick := u.nick;
      var v :| v in old(users) && v != u && old(v.nick) == nick && !old(Idle(v));
      assert old(userTable[nick]) == v;
      if v in users {
        assert v.nick == nick == u.nick && userTable[nick] == u;
      }
    }

    /** The program's user takes the nick of somebody who is in a chat, as a welcome may
      * have it: that user stays there and is in the table no more. */
    method TakeNickOf(other: SrnServerUser, ghost calm: bool)
      requires State(calm) && other in users && other != user && other.chatUsers != []
      modifies this`userTable, this`users, user`nick
      ensures other in users && user.nick == other.nick
      ensures other !in userTable.Values && user in userTable.Values
    {
      hide State;
      ListFacts(calm);
      OnceInTable(other, calm);
      OnceInTable(user, calm);
      var ok := ReplaceNick(user, other.nick);
      assert userTable[other.nick] == user;
    }

    lemma OnceInTable(su: SrnServerUser, calm: bool)
      requires State(calm) && su in users
      ensures su.nick in userTable && userTable[su.nick] == su
      ensures forall n <- userTable | userTable[n] == su :: n == su.nick
    {
    }

    /** A server on which that happens. */
    static method RenameOntoAnother(irc: SircSession) returns (srv: SrnServer, other: SrnServerUser)
      ensures fresh(srv) && other in srv.users && other != srv.user && other.nick == srv.user.nick
      ensures other !in srv.userTable.Values && srv.user in srv.userTable.Values && other.chatUsers != []
    {
      hide SrnServer.State;
      srv, other := TwoUsers(irc);
      srv.EnterOwnChat(other, true);
      srv.TakeNickOf(other, true);
    }

    static method TwoUsers(irc: SircSession) returns (srv: SrnServer, other: SrnServerUser)
      ensures fresh(srv) && srv.State(true) && other in srv.users && other != srv.user && srv.chat != null
      ensures fresh(srv.chat) && fresh(srv.user) && fresh(other)
    {
      hide SrnServer.Base, SrnServer.State;
      srv := new SrnServer("irc", "me", irc);
      assert !SameName("", "you") && !SameName("me", "you") && srv.Consistent("you");
      other := srv.AddAndGetUser("you");
      srv.Begin();
    }

    method EnterOwnChat(su: SrnServerUser, ghost calm: bool)
      requires State(calm) && su in users
      modifies chat`userList, su`chatUsers, this`members
      ensures State(calm) && su.chatUsers != []
    {
      hide State;
      ListFacts(calm);
      ChatFacts(chat, calm);
      var cu := Meet(chat, su, calm);
      SharedByBoth(chat, su, cu, calm);
    }

    // --------------------------------------------------------------- chats

    // Every chat knows which of its users is the user of the program.
    ghost predicate Mine()
      reads this`chats, this`user, chats`user, chats`userList
    {
      forall c <- chats :: Self(c)
    }

    ghost predicate Self(c: SrnChat)
      reads this`user, c`user, c`userList
    {
      c.user != null && c.user in c.userList && c.user.srvUser == user
    }

    // A chat without users.
    method EmptyChat(name: string, kind: ChatKind) returns (c: SrnChat)
      requires Base()
      modifies this`chats, this`lists
      ensures Base() && fresh(c) && fresh(c.list) && chats == old(chats) + {c} && c.kind == kind && c.name == name
      ensures c.userList == [] && !c.isJoined && c.srv == this && fresh(lists - old(lists))
    {
      hide Tabled, Distinct, InChat, OfUser, SrnChat.Rows, SrnChat.Counted;
      c := new SrnChat(this, name, kind);
      chats, lists := chats + {c}, lists + {c.list};
      LinkedWithChat(c);
      ViewsWithChat(c);
    }

    twostate lemma {:induction false} LinkedWithChat(new c: SrnChat)
      requires old(Linked()) && chats == old(chats) + {c} && users == old(users) && c.userList == []
      requires forall d <- old(chats) :: d.userList == old(d.userList)
      requires forall u <- users :: u.chatUsers == old(u.chatUsers)
      ensures Linked()
    {
      forall d <- chats ensures InChat(d) {
        assert d in old(chats) ==> old(InChat(d));
      }
      forall u <- users ensures OfUser(u) {
        assert old(OfUser(u));
      }
    }

    twostate lemma {:induction false} ViewsWithChat(new c: SrnChat)
      requires old(Views()) && chats == old(chats) + {c} && c.View() && fresh(c.list)
      requires lists == old(lists) + {c.list} && members == old(members) && c.srv == this && c.userList == []
      requires forall d <- old(chats) :: Intact(d)
      ensures Views()
    {
      hide SrnChat.View;
      ViewsOf(old(chats));
    }

    method NewChat(name: string, kind: ChatKind) returns (c: SrnChat)
      requires Base() && Mine() && (kind.Dialog? ==> Consistent(name))
      modifies this`chats, this`userTable, this`users, users`chatUsers, this`lists, this`members
      ensures Base() && Mine() && fresh(c) && chats == old(chats) + {c} && c.kind == kind && c.name == name
      ensures !c.isJoined && c.Empty()
      ensures old(members) <= members && fresh(members - old(members))
      ensures old(users) <= users && fresh(users - old(users))
      ensures fresh(lists - old(lists))
      ensures c.Holds(user) && c.Holds(anonymous)
      ensures kind.Dialog? ==> exists cu <- c.userList :: cu.srvUser.nick == name
    {
      hide Base, Mine;
      c := EmptyChat(name, kind);
      Fill(c);
      MineWithChat(c);
    }

    twostate lemma {:induction false} MineWithChat(new c: SrnChat)
      requires old(Mine()) && chats == old(chats) + {c} && Self(c) && user == old(user)
      requires forall d <- old(chats) :: d.user == old(d.user) && d.userList == old(d.userList)
      ensures Mine()
    {
      forall d <- old(chats) ensures Self(d) {
        assert old(Self(d));
      }
    }

    // The user of the program, nobody, and the target of a dialogue.
    method Fill(c: SrnChat)
      requires Base() && c in chats && c.srv == this && c.Empty() && (c.kind.Dialog? ==> Consistent(c.name))
      modifies this`userTable, this`users, c`userList, c`user, users`chatUsers, this`members
      ensures Base() && Self(c) && c.Empty()
      ensures old(members) <= members && fresh(members - old(members))
      ensures old(users) <= users && fresh(users - old(users))
      ensures c.Holds(user) && c.Holds(anonymous)
      ensures c.kind.Dialog? ==> exists cu <- c.userList :: cu.srvUser.nick == c.name
    {
      hide Linked, Distinct, Views;
      AddSelf(c);
      AddOthers(c);
    }

    method AddOthers(c: SrnChat)
      requires Base() && c in chats && c.srv == this && Self(c) && c.Empty() && (c.kind.Dialog? ==> Consistent(c.name))
      modifies this`userTable, this`users, c`userList, users`chatUsers, this`members
      ensures Base() && Self(c) && c.Empty()
      ensures old(members) <= members && fresh(members - old(members))
      ensures old(users) <= users && fresh(users - old(users))
      ensures old(c.userList) <= c.userList && c.Holds(anonymous)
      ensures c.kind.Dialog? ==> exists cu <- c.userList :: cu.srvUser.nick == c.name
    {
      hide Linked, Distinct, Views;
      AddMember(c, anonymous);
      if c.kind.Dialog? {
        AddTarget(c, c.name);
      }
    }

    method AddSelf(c: SrnChat)
      requires Base() && c in chats && c.srv == this && c.Empty()
      modifies c`userList, c`user, user`chatUsers, this`members
      ensures Base() && Self(c) && c.Empty()
      ensures old(members) <= members && fresh(members - old(members))
      ensures c.Holds(user)
    {
      hide Linked, Distinct, Views;
      var cu := c.AddAndGetUser(user);
      SetSelf(c, cu);
    }

    method SetSelf(c: SrnChat, cu: SrnChatUser)
      requires Base() && c in chats && cu in c.userList && cu.srvUser == user
      modifies c`user
      ensures Base() && Self(c)
    {
      c.user := cu;
      ViewsGrow(c);
    }

    method AddMember(c: SrnChat, su: SrnServerUser)
      requires Base() && c in chats && c.srv == this && su in users && Self(c) && c.Empty()
      modifies c`userList, su`chatUsers, this`members
      ensures Base() && Self(c) && c.Empty()
      ensures old(members) <= members && fresh(members - old(members))
      ensures old(c.userList) <= c.userList && c.Holds(su)
    {
      hide Base;
      var _ := c.AddAndGetUser(su);
    }

    // A dialogue's list holds the target as well.
    method AddTarget(c: SrnChat, name: string)
      requires Base() && c in chats && c.srv == this && Self(c) && c.Empty() && Consistent(name)
      modifies this`userTable, this`users, c`userList, users`chatUsers, this`members
      ensures Base() && Self(c) && c.Empty()
      ensures old(members) <= members && fresh(members - old(members))
      ensures old(users) <= users && fresh(users - old(users))
      ensures old(c.userList) <= c.userList && exists cu <- c.userList :: cu.srvUser.nick == name
    {
      hide Base;
      var su := AddAndGetUser(name);
      AddMember(c, su);
    }

    // Looks a chat up by its name, whatever its case.
    method GetChat(name: string) returns (c: SrnChat?)
      ensures c == null ==> forall d <- chatList :: !SameName(d.name, name)
      ensures c != null ==> c in chatList && SameName(c.name, name)
      ensures Look() == old(Look())
    {
      for i := 0 to |chatList|
        invariant forall j | 0 <= j < i :: !SameName(chatList[j].name, name)
      {
        if SameName(chatList[i].name, name) {
          return chatList[i];
        }
      }
      return null;
    }

    // The first chat with the name of the server is the server's own.
    function KindOf(first: bool, name: string, isChannel: bool): ChatKind {
      if first && name == this.name then ServerChat else if isChannel then Channel else Dialog
    }

    /** Adds a chat, unless one of that name is there. */
    method AddChat(name: string, isChannel: bool) returns (ok: bool, ghost made: set<SrnChat>)
      requires Whole() && (!isChannel ==> Consistent(name))
      modifies this`chats, this`chatList, this`chat, this`userTable, this`users, this`lists, this`members
      modifies users`chatUsers
      ensures Whole() && chats == old(chats) + made
      ensures ok == (forall d <- old(chatList) :: !SameName(d.name, name)) && (made != {} <==> ok)
      ensures old(chat) != null ==> chat == old(chat) && exists c <- chatList :: SameName(c.name, name)
      ensures forall c <- made :: fresh(c) && c.name == name && c.Empty() && !c.isJoined
      ensures forall c <- made ::
                && (c.kind.ServerChat? <==> old(chat) == null && name == this.name)
                && (c.kind.Channel? <==> isChannel && !c.kind.ServerChat?)
                && (c.kind.Dialog? <==> !isChannel && !c.kind.ServerChat?)
      ensures old(chatList) <= chatList && forall c <- chatList :: c in old(chatList) || c in made
      ensures old(members) <= members && fresh(members - old(members))
      ensures old(users) <= users && fresh(users - old(users))
      ensures fresh(lists - old(lists))
    {
      hide Base, Mine, SameName;
      made := {};
      var known := GetChat(name);
      if known != null {
        return false, made;
      }
      var c := EnlistNew(name, isChannel);
      return true, {c};
    }

    method EnlistNew(name: string, isChannel: bool) returns (c: SrnChat)
      requires Whole() && (!isChannel ==> Consistent(name)) && forall d <- chatList :: !SameName(d.name, name)
      modifies this`chats, this`chatList, this`chat, this`userTable, this`users, this`lists, this`members
      modifies users`chatUsers
      ensures Whole() && chats == old(chats) + {c} && fresh(c) && c.name == name && c.Empty() && !c.isJoined
      ensures old(chat) != null ==> chat == old(chat) && c in chatList && SameName(c.name, name)
      ensures c.kind == KindOf(old(chat) == null, name, isChannel)
      ensures old(chatList) <= chatList && forall d <- chatList :: d in old(chatList) || d == c
      ensures old(members) <= members && fresh(members - old(members))
      ensures old(users) <= users && fresh(users - old(users))
      ensures fresh(lists - old(lists))
    {
      hide Base, Mine, SameName;
      c := NewChat(name, KindOf(chat == null, name, isChannel));
      Enlist(c);
      SameNameBack(name, name);
    }

    /** The server's own chat, with which a new server begins. */
    method Begin()
      requires Whole() && chats == {}
      modifies this`chats, this`chatList, this`chat, this`userTable, this`users, this`lists, this`members
      modifies users`chatUsers
      ensures State(true) && Streaming() && chats == {chat} && old(users) <= users
      ensures fresh(chats) && fresh(users - old(users)) && fresh(lists - old(lists)) && fresh(members - old(members))
    {
      hide Base, Mine;
      var ok, made := AddChat(name, true);
      assert chats == made && forall c <- chats :: c.Empty() && c.kind.ServerChat?;
      NobodyPresent();
    }

    lemma NobodyPresent()
      requires Whole() && forall c <- chats :: c.Empty()
      ensures Present() && Calm()
    {
      assert forall c <- chats :: InChat(c) && Holds(c);
    }

    method Enlist(c: SrnChat)
      requires Base() && Mine() && c in chats && ListedBut(c) && (c.kind.ServerChat? ==> chat == null)
      requires forall d <- chatList :: !SameName(d.name, c.name)
      modifies this`chatList, this`chat
      ensures Whole()
      ensures if c.kind.ServerChat? then chat == c && chatList == old(chatList)
              else chat == old(chat) && chatList == old(chatList) + [c]
    {
      hide Base, Mine;
      if c.kind.ServerChat? {
        chat := c;
      } else {
        chatList := chatList + [c];
      }
    }

    /** Frees a chat that is not joined. */
    method RmChat(c: SrnChat) returns (ok: bool)
      requires Whole() && c in chats
      modifies this`chats, this`chatList, users`chatUsers
      ensures Whole()
      ensures ok == (!c.isJoined && c in old(chatList)) && chats == if ok then old(chats) - {c} else old(chats)
      ensures chat == old(chat) && (forall d <- chatList :: d in old(chatList))
      ensures if ok then c !in chatList else chatList == old(chatList)
      ensures forall d <- old(chatList) | d != c :: d in chatList
    {
      hide Base, Mine;
      if c.isJoined {
        return false;
      }
      var i := PlaceOfChat(c);
      if i == |chatList| {
        return false;
      }
      chatList := chatList[..i] + chatList[i + 1..];
      FreeChat(c);
      return true;
    }

    method FreeChat(c: SrnChat)
      requires Base() && Mine() && c in chats && ListedBut(c)
      modifies this`chats, users`chatUsers
      ensures Whole() && chats == old(chats) - {c}
    {
      hide Linked, Tabled, Distinct, InChat, OfUser, SrnChat.View;
      c.Free();
      ViewsFewer(c);
    }

    method PlaceOfChat(c: SrnChat) returns (i: nat)
      ensures i <= |chatList| && (i < |chatList| ==> chatList[i] == c) && (i == |chatList| <==> c !in chatList)
    {
      i := 0;
      while i < |chatList| && chatList[i] != c
        invariant i <= |chatList| && c !in chatList[..i]
      {
        i := i + 1;
      }
    }

    twostate lemma {:induction false} ViewsFewer(c: SrnChat)
      requires old(Views()) && chats == old(chats) - {c} && forall d <- old(chats) :: Intact(d)
      requires lists == old(lists) && members == old(members)
      ensures Views()
    {
      ViewsOf(old(chats));
    }

    // ---------------------------------------------------------- presence

    // Whoever is joined to a chat is online.
    ghost predicate Present()
      reads this`chats, this`users, this`members, chats`userList, members`isJoined, users`isOnline
    {
      forall c <- chats, cu <- c.userList ::
        cu in members && cu.srvUser in users && (cu.isJoined ==> cu.srvUser.isOnline)
    }

    // Nobody is joined to a chat that the program has not joined.
    ghost predicate Calm()
      reads this`chats, this`members, chats`userList, chats`isJoined, members`isJoined
    {
      forall c <- chats | !c.isJoined, cu <- c.userList :: cu in members && !cu.isJoined
    }

    // A chat is joined only while there is a stream.
    ghost predicate Streaming()
      reads this`chatList, chatList`isJoined, irc`stream
    {
      forall c <- chatList :: c.isJoined ==> irc.stream
    }

    lemma StreamingNow()
      requires irc.stream
      ensures Streaming()
    {
    }

    ghost function Look(): Picture
      reads this`chatList, this`chat, this`chats, chats`userList, chats`isJoined
      reads this`users, users`nick, users`isOnline, this`members, members`utype, members`isJoined
    {
      Picture(chatList, chat, map c <- chats :: (c.userList, c.isJoined), map u <- users :: (u.nick, u.isOnline),
              map cu <- members :: (cu.utype, cu.isJoined))
    }

    // What holds between two events, and, if `calm`, that nobody is in a chat that
    // the program has not joined.
    ghost predicate State(calm: bool)
      reads this`chats, this`lists, this`members, chats`userList, lists, members
      reads this`userTable, this`users, this`user, this`anonymous, users`nick, users`isMe, users`chatUsers
      reads this`chatList, this`chat, chats`user, chats`isJoined, users`isOnline
    {
      Whole() && chat != null && Present() && (calm ==> Calm())
    }

    // What has come to belong to the server is new.
    twostate predicate Grows()
      reads this`chats, this`users, this`lists, this`members
    {
      && (forall c <- chats :: c in old(chats) || fresh(c)) && (forall u <- users :: u in old(users) || fresh(u))
      && (forall l <- lists :: l in old(lists) || fresh(l)) && (forall m <- members :: m in old(members) || fresh(m))
    }

    /** A user who goes offline leaves all chats. */
    method SetIsOnline(su: SrnServerUser, online: bool, ghost calm: bool)
      requires State(calm) && su in users
      modifies su`isOnline, if online then {} else set cu <- su.chatUsers
      modifies if online then {} else set cu <- su.chatUsers :: cu.chat.list
      ensures State(calm) && su.isOnline == online
      ensures forall cu <- members | online || cu.srvUser != su :: unchanged(cu)
      ensures !online ==> forall cu <- su.chatUsers :: !cu.isJoined
      ensures OnlineLook(old(Look()), Look(), su, online)
    {
      hide State, OnlineLook, Look;
      if online {
        GoOnline(su, calm);
      } else {
        GoOffline(su, calm);
      }
    }

    method GoOnline(su: SrnServerUser, ghost calm: bool)
      requires State(calm) && su in users
      modifies su`isOnline
      ensures State(calm) && su.isOnline && OnlineLook(old(Look()), Look(), su, true)
    {
      hide Base, Mine, Listed, Present, Calm, OnlineLook, Look;
      su.isOnline := true;
      FewerPresent(su);
      LooksOnline(su);
    }

    method GoOffline(su: SrnServerUser, ghost calm: bool)
      requires State(calm) && su in users
      modifies su`isOnline, su.chatUsers, set cu <- su.chatUsers :: cu.chat.list
      ensures State(calm) && !su.isOnline && OnlineLook(old(Look()), Look(), su, false)
      ensures forall cu <- members | cu.srvUser != su :: unchanged(cu)
      ensures forall cu <- su.chatUsers :: !cu.isJoined
    {
      hide Base, Mine, Listed, Present, Calm, OnlineLook, Look;
      UserFacts(su, calm);
      su.isOnline := false;
      LeaveAll(su);
      FewerPresent(su);
      LooksOnline(su);
    }

    // Seen from outside, there are new members of one chat, which may be joined or left.
    twostate lemma {:induction false} LooksWithin(c: SrnChat)
      requires old(Sane(Look())) && chatList == old(chatList) && chat == old(chat) && chats == old(chats)
      requires users == old(users) && old(members) <= members
      requires forall d <- chats | d != c :: d.userList == old(d.userList) && d.isJoined == old(d.isJoined)
      requires forall u <- users :: u.nick == old(u.nick) && u.isOnline == old(u.isOnline)
      requires forall cu <- old(members) | cu.chat != c :: cu.utype == old(cu.utype) && cu.isJoined == old(cu.isJoined)
      ensures Within(old(Look()), Look(), c, Those(null, c), false)
      ensures c.isJoined == old(c.isJoined) ==> Within(old(Look()), Look(), c, Those(null, c), true)
    {
    }

    twostate lemma {:induction false} LooksBare()
      requires old(members) <= members
      requires forall cu <- old(members) :: cu.utype == old(cu.utype) && cu.isJoined == old(cu.isJoined)
      ensures KeepsMembers(old(Look()), Look(), Nobody)
    {
    }

    // Seen from outside, a user has come or gone online.
    static ghost predicate OnlineLook(a: Picture, b: Picture, su: SrnServerUser, online: bool) {
      && b == a.(users := b.users, members := b.members) && (online ==> b.members == a.members)
      && KeepsMembers(a, b, if online then Nobody else Those(su, null))
      && su in a.users && KeepsUsers(a, b, Some(a.users[su].0))
    }

    static lemma OnlineIsSome(a: Picture, b: Picture, su: SrnServerUser)
      requires OnlineLook(a, b, su, true)
      ensures b == a.(users := b.users) && KeepsUsers(a, b, Some(a.users[su].0))
    {
    }

    twostate lemma {:induction false} LooksOnline(su: SrnServerUser)
      requires su in users && chatList == old(chatList) && chat == old(chat) && chats == old(chats)
      requires users == old(users) && members == old(members)
      requires forall c <- chats :: c.userList == old(c.userList) && c.isJoined == old(c.isJoined)
      requires forall u <- users :: u.nick == old(u.nick) && (u != su ==> u.isOnline == old(u.isOnline))
      requires forall cu <- members | su.isOnline || cu.srvUser != su ::
                 cu.utype == old(cu.utype) && cu.isJoined == old(cu.isJoined)
      ensures OnlineLook(old(Look()), Look(), su, su.isOnline)
    {
    }

    method LeaveAll(su: SrnServerUser)
      requires Base() && su in users
      modifies su.chatUsers, set cu <- su.chatUsers :: cu.chat.list
      ensures Base() && forall cu <- su.chatUsers :: !cu.isJoined
    {
      hide Tabled, Distinct, Views, InChat;
      for i := 0 to |su.chatUsers|
        invariant Base() && forall j | 0 <= j < i :: !su.chatUsers[j].isJoined
      {
        assert OfUser(su);
        SetJoined(su.chatUsers[i], false);
      }
    }

    /** When the program leaves a chat everybody does. */
    method SetChatJoined(c: SrnChat, joined: bool, ghost calm: bool)
      requires State(calm) && c in chats
      modifies c`isJoined, c.userList, c.list
      ensures State(calm) && c.isJoined == joined
      ensures !joined && old(c.isJoined) ==> c.Empty()
      ensures forall cu <- members | joined || !old(c.isJoined) || cu.chat != c :: unchanged(cu)
      ensures Within(old(Look()), Look(), c, if joined then Nobody else Those(null, c), false)
    {
      hide Base, Mine, Listed, Present, Calm, Look, Within, KeepsMembers, Sane;
      SaneLook(calm);
      ghost var before := Look();
      if c.isJoined == joined {
        NothingWithin(before, c, if joined then Nobody else Those(null, c), false);
        return;
      }
      ChatFacts(c, calm);
      c.isJoined := joined;
      if !joined {
        Evict(c);
      } else {
        LooksBare();
      }
      FewerPresent(null);
      LooksWithin(c);
      if joined {
        NobodyWithin(before, Look(), c, false);
      }
    }

    method Evict(c: SrnChat)
      requires Base() && c in chats
      modifies c.userList, c.list
      ensures Base() && c.Empty()
    {
      hide Linked, Tabled, Distinct;
      for i := 0 to |c.userList|
        invariant Base() && forall j | 0 <= j < i :: !c.userList[j].isJoined
      {
        assert c.View();
        SetJoined(c.userList[i], false);
      }
    }

    // Users have left, and nobody but su has changed between online and offline.
    twostate lemma {:induction false} FewerPresent(su: SrnServerUser?)
      requires old(Present()) && Base() && (su != null ==> su in users) && chats == old(chats)
      requires users == old(users) && members == old(members)
      requires forall c <- chats :: c.userList == old(c.userList) && (c.isJoined || !old(c.isJoined) || c.Empty())
      requires forall u <- users | u != su :: u.isOnline == old(u.isOnline)
      requires forall cu <- members | cu.isJoined :: old(cu.isJoined)
      requires su != null && !su.isOnline ==> forall cu <- su.chatUsers :: !cu.isJoined
      ensures Present() && (old(Calm()) ==> Calm())
    {
      hide Tabled, Distinct, Views, SrnChat.View;
      assert forall c <- chats :: InChat(c);
    }

    // One user has joined or left.
    method Mark(cu: SrnChatUser, joined: bool, ghost calm: bool)
      requires State(calm) && cu.chat in chats && cu in cu.chat.userList && (cu.chat.kind.ServerChat? ==> !joined)
      requires joined ==> cu.srvUser.isOnline && (calm ==> cu.chat.isJoined)
      modifies cu, cu.chat.list
      ensures State(calm) && cu.isJoined == joined
      ensures Look() == old(Look()).(members := Look().members)
      ensures KeepsMembers(old(Look()), Look(), Those(cu.srvUser, cu.chat))
    {
      hide Base, Mine, Listed, Present, Calm;
      SetJoined(cu, joined);
      OneMorePresent(cu);
    }

    twostate lemma {:induction false} OneMorePresent(cu: SrnChatUser)
      requires old(Present()) && Base() && chats == old(chats) && users == old(users) && members == old(members)
      requires forall c <- chats :: c.userList == old(c.userList) && c.isJoined == old(c.isJoined)
      requires forall u <- users :: u.isOnline == old(u.isOnline)
      requires forall v <- members | v.isJoined && v != cu :: old(v.isJoined)
      requires cu.isJoined ==> cu.srvUser.isOnline
      ensures Present()
      ensures old(Calm()) && (cu.isJoined ==> cu.chat.isJoined) ==> Calm()
    {
      hide Tabled, Distinct, Views, SrnChat.View;
      assert forall c <- chats :: InChat(c);
    }

    // ------------------------------------------- looking up with Good kept

    // The user with that nick.
    method Know(nick: string, ghost calm: bool) returns (u: SrnServerUser)
      requires State(calm) && Consistent(nick)
      modifies this`userTable, this`users
      ensures State(calm) && Grows() && u in users && u.nick == nick && users == old(users) + {u}
      ensures u in old(users) || fresh(u)
      ensures Look() == old(Look()).(users := Look().users) && KeepsUsers(old(Look()), Look(), None)
    {
      hide Base, Mine, Listed, Present, Calm;
      u := AddAndGetUser(nick);
      MorePresent(null);
    }

    // The user of the chat.
    method Meet(c: SrnChat, su: SrnServerUser, ghost calm: bool) returns (cu: SrnChatUser)
      requires State(calm) && c in chats && su in users && c.srv == this
      modifies c`userList, su`chatUsers, this`members
      ensures State(calm) && Grows() && cu in c.userList && cu.srvUser == su && cu.chat == c
      ensures old(c.userList) <= c.userList
      ensures cu in old(c.userList) || (fresh(cu) && !cu.isJoined)
      ensures Within(old(Look()), Look(), c, Nobody, true)
    {
      hide Base, Mine, Listed, Present, Calm, Look, Within, KeepsMembers, Sane;
      SaneLook(calm);
      ghost var before := Look();
      cu := c.AddAndGetUser(su);
      MorePresent(c);
      MoreMine(c);
      LooksWithin(c);
      LooksBare();
      NobodyWithin(before, Look(), c, true);
    }

    twostate lemma {:induction false} MoreMine(c: SrnChat)
      requires old(Mine()) && chats == old(chats) && user == old(user) && old(c.userList) <= c.userList
      requires forall d <- chats :: d.user == old(d.user) && (d != c ==> d.userList == old(d.userList))
      ensures Mine()
    {
      forall d <- chats ensures Self(d) {
        assert old(Self(d));
      }
    }

    // There may be more users, and more chat users of c, who are not joined.
    twostate lemma {:induction false} MorePresent(c: SrnChat?)
      requires old(Present()) && Base() && chats == old(chats) && old(users) <= users && old(members) <= members
      requires forall d <- chats | d != c :: d.userList == old(d.userList)
      requires c != null ==> old(c.userList) <= c.userList
      requires c != null ==> forall cu <- c.userList :: cu in old(c.userList) || !cu.isJoined
      requires forall d <- chats :: d.isJoined == old(d.isJoined)
      requires forall u <- old(users) :: u.isOnline == old(u.isOnline)
      requires forall cu <- old(members) :: cu.isJoined == old(cu.isJoined)
      ensures Present() && (old(Calm()) ==> Calm())
    {
      hide Tabled, Distinct, SrnChat.View;
      assert forall d <- chats :: InChat(d) && Holds(d);
    }

    /** Adds a chat; nobody is joined to it yet. */
    method Open(name: string, isChannel: bool, ghost calm: bool) returns (ok: bool)
      requires State(calm) && (!isChannel ==> Consistent(name))
      modifies this`chats, this`chatList, this`chat, this`userTable, this`users, this`lists, this`members
      modifies users`chatUsers
      ensures State(calm) && Grows() && chat == old(chat) && old(chats) <= chats && old(users) <= users
      ensures exists c <- chatList :: SameName(c.name, name)
      ensures old(chatList) <= chatList && forall c <- chatList :: c in old(chatList) || !c.isJoined
      ensures KeepsAll(old(Look()), Look()) && KeepsMembers(old(Look()), Look(), Nobody)
      ensures KeepsUsers(old(Look()), Look(), None)
    {
      hide Base, Mine, Listed, Present, Calm;
      ghost var made;
      ok, made := AddChat(name, isChannel);
      NewPresent();
    }

    // There may be more users, and chats to which nobody is joined.
    twostate lemma {:induction false} NewPresent()
      requires old(Present()) && Base() && old(chats) <= chats && old(users) <= users && old(members) <= members
      requires forall d <- chats | d !in old(chats) :: d.Empty()
      requires forall d <- old(chats) :: d.userList == old(d.userList) && d.isJoined == old(d.isJoined)
      requires forall u <- old(users) :: u.isOnline == old(u.isOnline)
      requires forall cu <- old(members) :: cu.isJoined == old(cu.isJoined)
      ensures Present() && (old(Calm()) ==> Calm())
    {
      hide Tabled, Distinct, SrnChat.View;
      assert forall d <- chats :: InChat(d) && Holds(d);
    }

    /** Closes a chat that the program has left. */
    method Close(c: SrnChat, ghost calm: bool) returns (ok: bool)
      requires State(calm) && c in chats
      modifies this`chats, this`chatList, users`chatUsers
      ensures State(calm) && Grows() && ok == (!c.isJoined && c in old(chatList))
      ensures chats == if ok then old(chats) - {c} else old(chats)
      ensures (forall d <- chatList :: d in old(chatList))
      ensures if ok then c !in chatList else chatList == old(chatList)
      ensures forall d <- old(chatList) | d != c :: d in chatList
      ensures KeepsRest(old(Look()), Look(), c)
      ensures Look().users == old(Look()).users && Look().members == old(Look()).members
    {
      hide Base, Mine, Listed, Present, Calm;
      ok := RmChat(c);
      LessPresent();
    }

    twostate lemma {:induction false} LessPresent()
      requires old(Present()) && chats <= old(chats) && users == old(users) && members == old(members)
      requires forall d <- chats :: d.userList == old(d.userList) && d.isJoined == old(d.isJoined)
      requires forall u <- users :: u.isOnline == old(u.isOnline)
      requires forall cu <- members :: cu.isJoined == old(cu.isJoined)
      ensures Present() && (old(Calm()) ==> Calm())
    {
    }

    method Retype(cu: SrnChatUser, t: UserType, ghost calm: bool)
      requires State(calm) && cu.chat in chats && cu in cu.chat.userList
      modifies cu`utype, cu`uiType, cu.chat.list
      ensures State(calm) && cu.utype == t
      ensures Look() == old(Look()).(members := Look().members) && KeepsPresence(old(Look()), Look())
      ensures KeepsMembers(old(Look()), Look(), Those(cu.srvUser, cu.chat))
    {
      hide Base, Mine, Listed, Present, Calm;
      SetType(cu, t);
    }

    /** What the invariant says of a chat and a user: they share a chat user if each
      * has it in its list, and no more than one. */
    lemma {:induction false} SharedByBoth(c: SrnChat, u: SrnServerUser, cu: SrnChatUser, calm: bool)
      requires State(calm) && c in chats && u in users
      ensures (cu in c.userList && cu.srvUser == u) <==> (cu in u.chatUsers && cu.chat == c)
      ensures cu in c.userList && cu.srvUser == u ==> forall v <- c.userList | v.srvUser == u :: v == cu
    {
      hide Tabled, Distinct, SrnChat.View;
      assert InChat(c) && OfUser(u);
    }

    /** What it says of the counters: the operators, with administrators and owners, the
      * half-operators, the voiced users, and all users who are joined to the chat. */
    lemma {:induction false} CountersCount(c: SrnChat, calm: bool)
      requires State(calm) && c in chats
      ensures c.list.stat.fullOp
           == |set cu | cu in c.userList && cu.isJoined && (cu.utype.FullOp? || cu.utype.Admin? || cu.utype.Owner?)|
      ensures c.list.stat.halfOp == |set cu | cu in c.userList && cu.isJoined && cu.utype.HalfOp?|
      ensures c.list.stat.voiced == |set cu | cu in c.userList && cu.isJoined && cu.utype.Voiced?|
      ensures c.list.stat.total == |set cu | cu in c.userList && cu.isJoined|
    {
      hide State, Sum, Weights, CountOf;
      ViewOf(c, calm);
      CountsOf(c.userList, |c.userList|);
      assert c.userList[..|c.userList|] == c.userList;
      CountedSets(c.userList);
    }

    lemma ViewOf(c: SrnChat, calm: bool)
      requires State(calm) && c in chats
      ensures c.list.stat == Sum(Weights(c.userList), |c.userList|)
      ensures forall i, j :: 0 <= i < j < |c.userList| ==> c.userList[i] != c.userList[j]
    {
      assert c.View();
    }

    static lemma CountedSets(us: seq<SrnChatUser>)
      ensures CountOf(us, OPERATORS)
           == |set cu | cu in us && cu.isJoined && (cu.utype.FullOp? || cu.utype.Admin? || cu.utype.Owner?)|
      ensures CountOf(us, {HalfOp}) == |set cu | cu in us && cu.isJoined && cu.utype.HalfOp?|
      ensures CountOf(us, {Voiced}) == |set cu | cu in us && cu.isJoined && cu.utype.Voiced?|
      ensures CountOf(us, EVERYBODY) == |set cu | cu in us && cu.isJoined|
    {
      var ops := set cu | cu in us && cu.isJoined && (cu.utype.FullOp? || cu.utype.Admin? || cu.utype.Owner?);
      var half := set cu | cu in us && cu.isJoined && cu.utype.HalfOp?;
      var voiced := set cu | cu in us && cu.isJoined && cu.utype.Voiced?;
      var all := set cu | cu in us && cu.isJoined;
      forall cu | cu in all ensures cu in Picked(us, EVERYBODY) {
        assert cu.utype.Chigua? || cu.utype.Voiced? || cu.utype.HalfOp?
            || cu.utype.FullOp? || cu.utype.Admin? || cu.utype.Owner?;
      }
      assert Picked(us, OPERATORS) == ops;
      assert Picked(us, {HalfOp}) == half;
      assert Picked(us, {Voiced}) == voiced;
      assert Picked(us, EVERYBODY) == all;
    }

    /** What it says of a user list: a chat user has a row just when it is joined, the
      * rows show the present types, and the counters are the histogram of the joined
      * users, of whom there are as many as rows. */
    lemma {:induction false} RowsAreTheJoined(c: SrnChat, calm: bool)
      requires State(calm) && c in chats
      ensures forall u <- c.userList :: u.isJoined <==> HasRow(c.list.rows, u)
      ensures forall r <- c.list.rows :: r.user in c.userList && r.shown == r.user.utype
      ensures c.list.stat == Sum(Weights(c.userList), |c.userList|) && c.list.stat.total == |c.list.rows|
    {
      assert Holds(c) && c.View();
      TotalIsLength(Shown(c.list.rows), |c.list.rows|);
    }

    // What is known of a chat, and of a user.
    lemma ChatFacts(c: SrnChat, calm: bool)
      requires State(calm) && c in chats
      ensures c.srv == this && c.list in lists && (c in chatList ==> !c.kind.ServerChat?)
      ensures c.user != null && c.user in c.userList && c.user.srvUser == user
      ensures forall cu <- c.userList :: cu in members && cu.chat == c && cu.srvUser in users
    {
      assert Self(c) && InChat(c) && Holds(c);
    }

    lemma ListFacts(calm: bool)
      requires State(calm)
      ensures chat != null && chat in chats && chat.kind.ServerChat?
      ensures forall c <- chatList :: c in chats && !c.kind.ServerChat?
      ensures user in users && user.nick in userTable
      ensures forall u <- users :: (u.isMe <==> u == user) && u.nick in userTable
    {
    }

    lemma ListedLook()
      ensures Look().listed == chatList && Look().own == chat
    {
    }

    lemma SaneLook(calm: bool)
      requires State(calm)
      ensures Sane(Look())
    {
    }

    lemma UserFacts(su: SrnServerUser, calm: bool)
      requires State(calm) && su in users
      ensures forall cu <- su.chatUsers ::
                cu in members && cu.chat in chats && cu in cu.chat.userList && cu.chat.list in lists
      ensures forall cu <- su.chatUsers :: cu.srvUser == su
    {
      assert OfUser(su);
      forall cu <- su.chatUsers ensures cu in members && cu.chat.list in lists {
        assert Holds(cu.chat);
      }
    }

    // No other chat has that name.
    lemma OnlyChat(c: SrnChat, name: string, calm: bool)
      requires State(calm) && c in chatList && SameName(c.name, name)
      ensures forall d <- chatList | SameName(d.name, name) :: d == c
    {
      forall d <- chatList | SameName(d.name, name) ensures d == c {
        SameNameThrough(d.name, name, c.name);
        var i :| 0 <= i < |chatList| && chatList[i] == d;
        var j :| 0 <= j < |chatList| && chatList[j] == c;
        assert Listed();
      }
    }

    // --------------------------------------------------------- the events

    // A user is heard of and is online.
    method Greet(origin: string, ghost calm: bool) returns (su: SrnServerUser)
      requires State(calm) && Consistent(origin)
      modifies this`userTable, this`users, users`isOnline
      ensures State(calm) && Grows() && su in users && su.isOnline && (su.isMe <==> origin == user.nick)
      ensures old(users) <= users && user == old(user) && su.nick == origin
      ensures Look() == old(Look()).(users := Look().users) && KeepsUsers(old(Look()), Look(), Some(origin))
    {
      hide State, Look, KeepsChat, KeepsOthers, KeepsOwn, KeepsRest, KeepsUsers, KeepsJoined, KeepsAll;
      hide KeepsMembers, KeepsList, Within, Sane, Near, OnlineLook;
      ghost var before := Look();
      su := Know(origin, calm);
      ghost var between := Look();
      ListFacts(calm);
      NickLook(su);
      SetIsOnline(su, true, calm);
      OnlineIsSome(between, Look(), su);
      SomeUser(before, between, Look(), origin);
      NickFacts(su, calm);
    }

    lemma SparedForMe(nick: string, calm: bool)
      requires State(calm) && Spared(user.nick, nick)
      ensures user in users && Cased(user, nick) && Replaceable(user, nick)
    {
    }

    lemma NicksAreKeys(calm: bool)
      requires State(calm)
      ensures forall u <- users :: u.nick in userTable && userTable[u.nick] == u
      ensures forall n <- userTable :: userTable[n] in users && userTable[n].nick == n
    {
    }

    lemma NickFacts(su: SrnServerUser, calm: bool)
      requires State(calm) && su in users
      ensures (su.isMe <==> su.nick == user.nick) && su.nick in userTable && userTable[su.nick] == su
    {
    }

    // Whether somebody of that nick is joined to the chat.
    ghost predicate Joined(c: SrnChat, nick: string)
      reads c`userList, c.userList`isJoined, set cu <- c.userList :: cu.srvUser`nick
    {
      exists cu <- c.userList :: cu.srvUser.nick == nick && cu.isJoined
    }

    // ------------------------------------------------------ what an event does

    // Only members of that nick, in chats of that name, join, leave, or change type.
    ghost predicate OnlyMembers(before: Picture, nick: string, name: string)
      reads this, Look.reads(), set cu <- before.members.Keys :: cu.srvUser`nick
    {
      forall cu <- before.members | cu.srvUser.nick != nick || !SameName(cu.chat.name, name) ::
        KeepsMember(before, Look(), cu)
    }

    // Only members of that nick join, leave, or change type.
    ghost predicate OnlyOf(before: Picture, nick: string)
      reads this, Look.reads(), set cu <- before.members.Keys :: cu.srvUser`nick
    {
      forall cu <- before.members | cu.srvUser.nick != nick :: KeepsMember(before, Look(), cu)
    }

    lemma NickLook(su: SrnServerUser)
      requires su in users
      ensures su in Look().users && Look().users[su].0 == su.nick
    {
    }

    // Only members of that nick, whatever its case, or all, in chats of that name.
    ghost predicate OnlyNamed(before: Picture, nick: string, name: string, all: bool)
      reads this, Look.reads(), set cu <- before.members.Keys :: cu.srvUser`nick
    {
      forall cu <- before.members | !SameName(cu.chat.name, name) || !(all || SameName(cu.srvUser.nick, nick)) ::
        KeepsMember(before, Look(), cu)
    }

    lemma NothingOnly(nick: string, name: string, all: bool)
      ensures OnlyNamed(Look(), nick, name, all) && OnlyMembers(Look(), nick, name)
    {
    }

    lemma NearIsOnly(before: Picture, su: SrnServerUser, name: string, but: Option<string>)
      requires Near(before, Look(), name, su, but)
      ensures OnlyMembers(before, su.nick, name)
    {
    }

    /** The user is in the chat, which the program has joined if the user is the program;
      * nobody else changes, nor the user in other chats. */
    twostate predicate Joins(origin: string, chan: string)
      reads *
    {
      var a, b, mine := old(Look()), Look(), origin == old(user.nick);
      && KeepsOthers(a, b, chan) && KeepsOwn(a, b) && KeepsUsers(a, b, Some(origin)) && OnlyMembers(a, origin, chan)
      && (forall c <- chatList | SameName(c.name, chan) :: Joined(c, origin) && (mine ==> c.isJoined))
      && (if mine then a.listed <= b.listed && exists c <- chatList :: SameName(c.name, chan)
          else KeepsList(a, b) && KeepsJoined(a, b))
    }

    /** JOIN: the chat is looked up, or added when it is the program that joins; the
      * user joins it, and nobody else is touched. */
    method OnJoin(origin: string, chan: string, ghost calm: bool)
      requires irc.stream && State(calm) && Consistent(origin)
      requires calm && origin != user.nick ==> forall c <- chatList | SameName(c.name, chan) :: c.isJoined
      modifies this`chats, this`chatList, this`chat, this`userTable, this`users, this`lists, this`members
      modifies chats`userList, chats`isJoined, users`chatUsers, users`isOnline, lists, members
      ensures Streaming() && State(calm) && Grows()
      ensures Joins(origin, chan)
    {
      hide State, SameName, Joined, Look, KeepsChat, KeepsOthers, KeepsOwn, KeepsRest, KeepsUsers, KeepsJoined;
      hide KeepsAll, KeepsMembers, KeepsList, Within, Sane, Near, OnlyMembers, Consistent, Streaming;
      SaneLook(calm);
      ghost var before := Look();
      ListFacts(calm);
      var su := Greet(origin, calm);
      ghost var between := Look();
      Admit(su, chan, calm);
      OnlineThen(before, between, Look(), origin, chan, su);
      NearIsOnly(before, su, chan, Some(origin));
      NearParts(before, Look(), chan, su, Some(origin));
      StreamingNow();
    }

    method Admit(su: SrnServerUser, chan: string, ghost calm: bool)
      requires State(calm) && su in users && su.isOnline
      requires calm && !su.isMe ==> forall c <- chatList | SameName(c.name, chan) :: c.isJoined
      modifies this`chats, this`chatList, this`chat, this`userTable, this`users, this`lists, this`members
      modifies chats`userList, chats`isJoined, users`chatUsers, lists, members
      ensures State(calm) && Grows() && su.isMe == old(su.isMe) && su.nick == old(su.nick)
      ensures forall c <- chatList | SameName(c.name, chan) :: Joined(c, su.nick) && (su.isMe ==> c.isJoined)
      ensures su.isMe ==> exists c <- chatList :: SameName(c.name, chan)
      ensures Near(old(Look()), Look(), chan, su, None) && old(Look()).listed <= Look().listed
      ensures !su.isMe ==> KeepsList(old(Look()), Look()) && KeepsJoined(old(Look()), Look())
    {
      hide State, SameName, Joined, Look, KeepsChat, KeepsOthers, KeepsOwn, KeepsRest, KeepsUsers, KeepsJoined;
      hide KeepsAll, KeepsMembers, KeepsList, Within, Sane, Near;
      ghost var before := Look();
      if su.isMe {
        JoinMine(su, chan, calm);
      } else {
        JoinOther(su, chan, calm);
        SameList(before, Look());
      }
    }

    method JoinOther(su: SrnServerUser, chan: string, ghost calm: bool)
      requires State(calm) && su in users && su.isOnline
      requires calm && !su.isMe ==> forall c <- chatList | SameName(c.name, chan) :: c.isJoined
      modifies chats`userList, chats`isJoined, lists, members, su`chatUsers, this`members
      ensures State(calm) && Grows() && forall c <- chatList | SameName(c.name, chan) :: Joined(c, su.nick)
      ensures Near(old(Look()), Look(), chan, su, None) && KeepsList(old(Look()), Look())
      ensures !su.isMe ==> KeepsJoined(old(Look()), Look())
    {
      hide State, SameName, Look, KeepsChat, KeepsOthers, KeepsOwn, KeepsRest, KeepsUsers, KeepsJoined, KeepsAll;
      hide KeepsMembers, KeepsList, Within, Sane, Near, Joined, Consistent, Streaming;
      SaneLook(calm);
      ListedLook();
      ghost var before := Look();
      var c := GetChat(chan);
      if c == null {
        NothingIsNear(before, chan, su, None);
        return;
      }
      ListFacts(calm);
      ChatFacts(c, calm);
      OnlyChat(c, chan, calm);
      Seat(c, su, calm);
      WithinIsNear(before, Look(), c, Those(su, c), !su.isMe, chan);
    }

    method JoinMine(su: SrnServerUser, chan: string, ghost calm: bool)
      requires State(calm) && su in users && su.isOnline && su.isMe
      modifies this`chats, this`chatList, this`chat, this`userTable, this`users, this`lists, this`members
      modifies chats`userList, chats`isJoined, users`chatUsers, lists, members
      ensures State(calm) && Grows()
      ensures exists c <- chatList :: SameName(c.name, chan)
      ensures forall c <- chatList | SameName(c.name, chan) :: c.isJoined && Joined(c, su.nick)
      ensures su.nick == old(su.nick)
      ensures Near(old(Look()), Look(), chan, su, None) && old(Look()).listed <= Look().listed
    {
      hide State, SameName, Joined, Consistent, Look, KeepsChat, KeepsOthers, KeepsOwn, KeepsRest, KeepsUsers;
      hide KeepsJoined, KeepsAll, KeepsMembers, KeepsList, Within, Sane, Near;
      SaneLook(calm);
      ghost var before := Look();
      var _ := Open(chan, true, calm);
      ghost var between := Look();
      SeatMine(su, chan, calm);
      AddedThen(before, between, Look(), chan, su);
    }

    method SeatMine(su: SrnServerUser, chan: string, ghost calm: bool)
      requires State(calm) && su in users && su.isOnline && su.isMe && exists c <- chatList :: SameName(c.name, chan)
      modifies chats`userList, chats`isJoined, lists, members, su`chatUsers, this`members
      ensures State(calm) && Grows()
      ensures forall c <- chatList | SameName(c.name, chan) :: c.isJoined && Joined(c, su.nick)
      ensures Near(old(Look()), Look(), chan, su, None) && KeepsList(old(Look()), Look())
    {
      hide State, SameName, Look, KeepsChat, KeepsOthers, KeepsOwn, KeepsRest, KeepsUsers, KeepsJoined, KeepsAll;
      hide KeepsMembers, KeepsList, Within, Sane, Near, Joined, Consistent, Streaming;
      SaneLook(calm);
      ListedLook();
      ghost var before := Look();
      var c := GetChat(chan);
      ListFacts(calm);
      ChatFacts(c, calm);
      OnlyChat(c, chan, calm);
      Seat(c, su, calm);
      WithinIsNear(before, Look(), c, Those(su, c), !su.isMe, chan);
    }

    method Seat(c: SrnChat, su: SrnServerUser, ghost calm: bool)
      requires State(calm) && c in chatList && c in chats && su in users && su.isOnline
      requires calm && !su.isMe ==> c.isJoined
      modifies c`userList, c`isJoined, c.list, c.userList, su`chatUsers, this`members
      ensures State(calm) && Grows() && Joined(c, su.nick) && (su.isMe ==> c.isJoined)
      ensures Within(old(Look()), Look(), c, Those(su, c), !su.isMe)
    {
      hide State, Look, KeepsChat, KeepsOthers, KeepsOwn, KeepsRest, KeepsUsers, KeepsJoined, KeepsAll;
      hide KeepsMembers, KeepsList, Within, Sane, Near;
      ListFacts(calm);
      ChatFacts(c, calm);
      ghost var before := Look();
      var cu: SrnChatUser;
      if su.isMe {
        SetChatJoined(c, true, calm);
        cu := c.user;
      } else {
        cu := Meet(c, su, calm);
      }
      ghost var between := Look();
      SaneLook(calm);
      if cu.isJoined {
        WithinWider(before, between, c, Nobody, Those(su, c), !su.isMe, !su.isMe);
        return;
      }
      Mark(cu, true, calm);
      MembersWithin(between, Look(), c, Those(su, c));
      WithinWider(between, Look(), c, Those(su, c), Those(su, c), true, !su.isMe);
      WithinThrough(before, between, Look(), c, Nobody, Those(su, c), !su.isMe);
    }

    // No other user of the chat has that nick.
    lemma OnlyUser(c: SrnChat, cu: SrnChatUser, nick: string, calm: bool)
      requires State(calm) && c in chats && cu in c.userList && SameName(cu.srvUser.nick, nick)
      ensures forall v <- c.userList | SameName(v.srvUser.nick, nick) :: v == cu
    {
      assert InChat(c);
      forall v <- c.userList | SameName(v.srvUser.nick, nick) ensures v == cu {
        SameNameThrough(v.srvUser.nick, nick, cu.srvUser.nick);
        var i :| 0 <= i < |c.userList| && c.userList[i] == v;
        var j :| 0 <= j < |c.userList| && c.userList[j] == cu;
      }
    }

    // Nobody of that nick, whatever its case, is joined to the chat.
    ghost predicate Absent(c: SrnChat, nick: string)
      reads c`userList, c.userList`isJoined, set cu <- c.userList :: cu.srvUser`nick
    {
      forall cu <- c.userList | SameName(cu.srvUser.nick, nick) :: !cu.isJoined
    }

    // The program leaves a chat of that name under that nick.
    ghost predicate Leaves(origin: string, chan: string)
      reads *
    {
      exists c <- chatList :: SameName(c.name, chan) && Leaving(c, origin)
    }

    /** The user is out of the chat, which is closed if the program left it; otherwise
      * nobody else changes, and nobody does in other chats. */
    twostate predicate Parts(origin: string, chan: string)
      reads *
    {
      var a, b := old(Look()), Look();
      && KeepsOthers(a, b, chan) && KeepsOwn(a, b) && KeepsUsers(a, b, None)
      && OnlyNamed(a, origin, chan, old(Leaves(origin, chan)))
      && (forall c <- a.listed | SameName(c.name, chan) ::
            if old(Leaving(c, origin)) then c !in b.listed else c in b.listed && KeepsChat(a, b, c))
      && (forall c <- b.listed :: c in a.listed && (SameName(c.name, chan) ==> Absent(c, origin)))
    }

    /** PART: who leaves is taken from the chat; when it is the program, the chat is
      * closed.  Other chats are not touched. */
    method OnPart(origin: string, chan: string, ghost calm: bool)
      requires irc.stream && State(calm)
      modifies this`chats, this`chatList, chats`isJoined, users`chatUsers, lists, members
      ensures Streaming() && State(calm) && Grows()
      ensures Parts(origin, chan)
    {
      hide State, SameName, Leaving, Absent, Streaming, Look, KeepsChat, KeepsOthers, KeepsOwn, KeepsRest;
      hide KeepsUsers, KeepsJoined, KeepsAll, KeepsMembers, KeepsList, Within, Sane, Near, OnlyMembers, OnlyNamed;
      hide Left, Departed;
      ghost var before := Look();
      ListFacts(calm);
      SaneLook(calm);
      ListedLook();
      NothingOnly(origin, chan, false);
      var c := GetChat(chan);
      if c == null {
        NothingIsNear(before, chan, null, None);
        NearParts(before, before, chan, null, None);
        StreamingNow();
        return;
      }
      ChatFacts(c, calm);
      OnlyChat(c, chan, calm);
      ghost var closing := Leaving(c, origin);
      assert closing == old(Leaving(c, origin));
      Depart(c, origin, calm);
      ListedLook();
      DepartedParts(before, c, origin, chan, closing);
      StreamingNow();
    }

    lemma DepartedParts(a: Picture, c: SrnChat, nick: string, name: string, closed: bool)
      requires Departed(a, c, nick, closed) && Sane(a) && c in a.listed && SameName(c.name, name)
      ensures KeepsOthers(a, Look(), name) && KeepsOwn(a, Look()) && KeepsUsers(a, Look(), None)
      ensures OnlyNamed(a, nick, name, closed) && (forall d <- Look().listed :: d in a.listed)
      ensures if closed then c !in Look().listed else c in Look().listed && KeepsChat(a, Look(), c)
    {
      forall d: SrnChat | SameName(d.name, c.name) ensures SameName(d.name, name) {
        SameNameBack(c.name, name);
        SameNameThrough(d.name, c.name, name);
      }
      forall d: SrnChat | SameName(d.name, name) ensures SameName(d.name, c.name) {
        SameNameThrough(d.name, name, c.name);
      }
    }

    // It is the program that leaves the chat under that nick.
    ghost predicate Leaving(c: SrnChat, nick: string)
      reads c`userList, c.userList`isJoined, set cu <- c.userList :: cu.srvUser`nick
      reads set cu <- c.userList :: cu.srvUser`isMe
    {
      exists cu <- c.userList :: SameName(cu.srvUser.nick, nick) && cu.isJoined && cu.srvUser.isMe
    }

    // What Depart leaves, seen from outside.
    ghost predicate Departed(a: Picture, c: SrnChat, nick: string, closed: bool)
      reads this, Look.reads(), set cu <- a.members.Keys :: cu.srvUser`nick
    {
      && OnlyNamed(a, nick, c.name, closed) && KeepsUsers(a, Look(), None)
      && if closed then KeepsRest(a, Look(), c) && c !in Look().listed && forall d <- Look().listed :: d in a.listed
         else Look() == a.(members := Look().members)
    }

    lemma LeftIsDeparted(a: Picture, c: SrnChat, user: SrnServerUser, nick: string, closed: bool)
      requires Left(a, Look(), c, user, closed) && SameName(user.nick, nick)
      ensures Departed(a, c, nick, closed)
    {
      SameNameBack(c.name, c.name);
    }

    lemma NothingDeparted(c: SrnChat, nick: string)
      ensures Departed(Look(), c, nick, false)
    {
    }

    method Depart(c: SrnChat, nick: string, ghost calm: bool)
      requires State(calm) && c in chatList && c in chats
      modifies this`chats, this`chatList, c`isJoined, c.userList, c.list, users`chatUsers
      ensures State(calm) && Grows() && Absent(c, nick)
      ensures Departed(old(Look()), c, nick, old(Leaving(c, nick)))
    {
      hide State, SameName, Look, Departed, Left;
      ghost var before := Look();
      ChatFacts(c, calm);
      var cu := c.GetUser(nick);
      if cu == null {
        NothingDeparted(c, nick);
        return;
      }
      OnlyUser(c, cu, nick, calm);
      if !cu.isJoined {
        NothingDeparted(c, nick);
        return;
      }
      LeaveChat(c, cu, calm);
      LeftIsDeparted(before, c, cu.srvUser, nick, cu.srvUser.isMe);
    }

    // A chat is closed, or somebody has left it.
    static ghost predicate Left(a: Picture, b: Picture, c: SrnChat, user: SrnServerUser, closed: bool) {
      if closed then
        && KeepsRest(a, b, c) && KeepsUsers(a, b, None) && KeepsMembers(a, b, Those(null, c)) && c !in b.listed
        && forall d <- b.listed :: d in a.listed
      else b == a.(members := b.members) && KeepsMembers(a, b, Those(user, c))
    }

    static lemma ClosedAfter(a: Picture, b: Picture, d: Picture, e: Picture, c: SrnChat, user: SrnServerUser)
      requires b == a.(members := b.members) && KeepsMembers(a, b, Those(user, c))
      requires Within(b, d, c, Those(null, c), false)
      requires KeepsRest(d, e, c) && e.users == d.users && e.members == d.members && c !in e.listed
      requires forall f <- e.listed :: f in d.listed
      ensures Left(a, e, c, user, true)
    {
    }

    method LeaveChat(c: SrnChat, cu: SrnChatUser, ghost calm: bool)
      requires State(calm) && c in chatList && c in chats && cu in c.userList && cu.chat == c
      modifies this`chats, this`chatList, c`isJoined, c.userList, c.list, users`chatUsers
      ensures State(calm) && Grows() && !cu.isJoined
      ensures Left(old(Look()), Look(), c, cu.srvUser, cu.srvUser.isMe)
      ensures !cu.srvUser.isMe ==> forall v <- c.userList | v != cu :: v.isJoined == old(v.isJoined)
    {
      hide State, Look, KeepsRest, KeepsUsers, KeepsMembers, Within, Left;
      ghost var before := Look();
      ChatFacts(c, calm);
      Mark(cu, false, calm);
      ghost var between := Look();
      if cu.srvUser.isMe {
        SetChatJoined(c, false, calm);
        ghost var left := Look();
        ListedLook();
        var closed := Close(c, calm);
        assert closed;
        ListedLook();
        ClosedAfter(before, between, left, Look(), c, cu.srvUser);
      } else {
        LeftOne(before, Look(), c, cu.srvUser);
      }
    }

    static lemma LeftOne(a: Picture, b: Picture, c: SrnChat, user: SrnServerUser)
      requires b == a.(members := b.members) && KeepsMembers(a, b, Those(user, c))
      ensures Left(a, b, c, user, false)
    {
    }

    /** Who kicks is known in the chat and who is kicked is out of it, and everybody is if
      * it is the program; nobody changes in other chats. */
    twostate predicate Kicks(origin: string, chan: string, kicked: string, calm: bool)
      reads *
    {
      var a, b, mine := old(Look()), Look(), SameName(kicked, user.nick);
      && KeepsOthers(a, b, chan) && KeepsOwn(a, b) && KeepsList(a, b) && KeepsUsers(a, b, None)
      && OnlyNamed(a, kicked, chan, mine) && (!mine ==> KeepsJoined(a, b))
      && (forall c <- chatList | SameName(c.name, chan) ::
            && Knows(c, origin) && Absent(c, kicked)
            && (mine ==> !c.isJoined && (calm || old(c.isJoined) ==> c.Empty())))
    }

    /** KICK: who is kicked leaves; with the program everybody does.  Other chats are
      * not touched. */
    method OnKick(origin: string, chan: string, kicked: string, ghost calm: bool)
      requires irc.stream && State(calm) && Consistent(origin)
      modifies this`userTable, this`users, this`members, chats`isJoined, chats`userList, users`chatUsers, lists, members
      ensures Streaming() && State(calm) && Grows()
      ensures Kicks(origin, chan, kicked, calm)
    {
      hide State, SameName, Absent, Knows, Streaming, Consistent, SrnChat.Empty, Look, KeepsChat, KeepsOthers;
      hide KeepsOwn, KeepsRest, KeepsUsers, KeepsJoined, KeepsAll, KeepsMembers, KeepsList, Within, Sane, Near;
      hide OnlyMembers, OnlyNamed, Left, Departed;
      ghost var before := Look();
      ListFacts(calm);
      SaneLook(calm);
      ListedLook();
      NothingOnly(kicked, chan, SameName(kicked, user.nick));
      var c := GetChat(chan);
      if c == null {
        NothingIsNear(before, chan, null, None);
        NearParts(before, before, chan, null, None);
        StreamingNow();
        return;
      }
      OnlyChat(c, chan, calm);
      ChatFacts(c, calm);
      MeetAndKick(c, origin, kicked, calm);
      ListedLook();
      KickedParts(before, c, chan, kicked, SameName(kicked, user.nick));
      StreamingNow();
    }

    // What a kick leaves, seen from outside.
    ghost predicate Kicked(a: Picture, c: SrnChat, nick: string, mine: bool)
      reads this, Look.reads(), set cu <- a.members.Keys :: cu.srvUser`nick
    {
      Within(a, Look(), c, Those(null, c), !mine) && OnlyNamed(a, nick, c.name, mine)
    }

    lemma KickedParts(a: Picture, c: SrnChat, name: string, nick: string, mine: bool)
      requires Kicked(a, c, nick, mine) && Sane(a) && c in a.listed && SameName(c.name, name)
      ensures KeepsOthers(a, Look(), name) && KeepsOwn(a, Look()) && KeepsUsers(a, Look(), None)
      ensures OnlyNamed(a, nick, name, mine) && KeepsList(a, Look()) && (!mine ==> KeepsJoined(a, Look()))
    {
      WithinIsNear(a, Look(), c, Those(null, c), !mine, name);
      forall d: SrnChat | SameName(d.name, c.name) ensures SameName(d.name, name) {
        SameNameBack(c.name, name);
        SameNameThrough(d.name, c.name, name);
      }
    }

    // Who does something in a chat is known there from then on.
    method Introduce(c: SrnChat, nick: string, ghost calm: bool) returns (cu: SrnChatUser)
      requires State(calm) && c in chats && Consistent(nick)
      modifies this`userTable, this`users, this`members, c`userList, users`chatUsers
      ensures State(calm) && Grows() && cu in c.userList && cu.srvUser.nick == nick && cu.chat == c && cu in members
      ensures old(users) <= users && fresh(users - old(users)) && fresh(members - old(members))
      ensures forall u <- users :: u in old(users) || u.nick == nick
      ensures forall v <- c.userList :: v in members
      ensures c.list in lists && (c in chatList ==> !c.kind.ServerChat?)
      ensures (cu in old(members) || !cu.isJoined) && old(c.userList) <= c.userList
      ensures Within(old(Look()), Look(), c, Nobody, true)
    {
      hide State, SameName, Look, KeepsChat, KeepsOthers, KeepsOwn, KeepsRest, KeepsUsers, KeepsJoined, KeepsAll;
      hide KeepsMembers, KeepsList, Within, Sane, Near;
      SaneLook(calm);
      ghost var before := Look();
      var su := Know(nick, calm);
      ghost var between := Look();
      UsersWithin(before, between, c);
      ChatFacts(c, calm);
      cu := Meet(c, su, calm);
      WithinThrough(before, between, Look(), c, Nobody, Nobody, true);
      ChatFacts(c, calm);
    }

    method MeetAndKick(c: SrnChat, origin: string, kicked: string, ghost calm: bool)
      requires State(calm) && c in chats && Consistent(origin)
      modifies this`userTable, this`users, this`members, c`isJoined, c`userList, members, c.list, users`chatUsers
      ensures State(calm) && Grows() && Knows(c, origin) && Absent(c, kicked)
      ensures Kicked(old(Look()), c, kicked, SameName(kicked, user.nick))
      ensures SameName(kicked, user.nick) ==> !c.isJoined && (calm || old(c.isJoined) ==> c.Empty())
    {
      hide State, SameName, Look, KeepsChat, KeepsOthers, KeepsOwn, KeepsRest, KeepsUsers, KeepsJoined, KeepsAll;
      hide KeepsMembers, KeepsList, Within, Sane, Near, OnlyMembers, OnlyNamed, Left, Departed, Kicked, Absent;
      ghost var before := Look();
      var _ := Introduce(c, origin, calm);
      ChatFacts(c, calm);
      assert forall i | 0 <= i < |c.userList| :: c.userList[i] in members;
      ghost var between := Look();
      Kick(c, kicked, calm);
      MetThenKicked(before, between, c, kicked, SameName(kicked, user.nick));
    }

    lemma MetThenKicked(a: Picture, b: Picture, c: SrnChat, nick: string, mine: bool)
      requires Within(a, b, c, Nobody, true) && Kicked(b, c, nick, mine)
      ensures Kicked(a, c, nick, mine)
    {
      WithinWider(a, b, c, Nobody, Nobody, true, !mine);
      WithinThrough(a, b, Look(), c, Nobody, Those(null, c), !mine);
    }

    method Kick(c: SrnChat, kicked: string, ghost calm: bool)
      requires State(calm) && c in chats
      modifies c`isJoined, c.userList, c.list
      ensures State(calm) && Absent(c, kicked) && Kicked(old(Look()), c, kicked, SameName(kicked, user.nick))
      ensures SameName(kicked, user.nick) ==> !c.isJoined && (calm || old(c.isJoined) ==> c.Empty())
    {
      hide State, SameName, Look, KeepsChat, KeepsOthers, KeepsOwn, KeepsRest, KeepsUsers, KeepsJoined, KeepsAll;
      hide KeepsMembers, KeepsList, Within, Sane, Near, OnlyMembers, OnlyNamed, Left, Departed, Kicked;
      ghost var before, mine := Look(), SameName(kicked, user.nick);
      SaneLook(calm);
      ChatFacts(c, calm);
      ListFacts(calm);
      SameNameBack(kicked, user.nick);
      SameNameBack(user.nick, kicked);
      var cu := c.GetUser(kicked);
      if cu == null {
        NothingKicked(c, kicked, mine);
        return;
      }
      OnlyUser(c, cu, kicked, calm);
      if cu.srvUser.isMe {
        SetChatJoined(c, false, calm);
        NobodyIn(c, calm);
      } else {
        NothingWithin(before, c, Those(null, c), !mine);
      }
      ghost var between := Look();
      SaneLook(calm);
      Mark(cu, false, calm);
      LeftIsKicked(before, between, c, cu.srvUser, kicked, mine);
    }

    lemma NothingKicked(c: SrnChat, nick: string, mine: bool)
      requires Sane(Look())
      ensures Kicked(Look(), c, nick, mine)
    {
    }

    lemma LeftIsKicked(a: Picture, b: Picture, c: SrnChat, user: SrnServerUser, nick: string, mine: bool)
      requires Within(a, b, c, Those(null, c), !mine) && (!mine ==> b == a) && Sane(b) && SameName(user.nick, nick)
      requires Look() == b.(members := Look().members) && KeepsMembers(b, Look(), Those(user, c))
      ensures Kicked(a, c, nick, mine)
    {
      MembersWithin(b, Look(), c, Those(user, c));
      WithinWider(b, Look(), c, Those(user, c), Those(null, c), true, !mine);
      WithinThrough(a, b, Look(), c, Those(null, c), Those(null, c), !mine);
      SameNameBack(c.name, c.name);
    }

    /** Who quits is offline and in no chat; nobody else changes. */
    twostate predicate Quits(origin: string)
      reads *
    {
      var a, b := old(Look()), Look();
      && b == a.(users := b.users, members := b.members) && KeepsUsers(a, b, Some(origin))
      && (forall u <- users | u.nick == origin :: !u.isOnline && forall cu <- u.chatUsers :: !cu.isJoined)
      && OnlyOf(a, origin)
    }

    /** QUIT: who quits leaves every chat, and nobody else does. */
    method OnQuit(origin: string, ghost calm: bool)
      requires irc.stream && State(calm)
      modifies users`isOnline, lists, members
      ensures Streaming() && State(calm) && Quits(origin)
    {
      hide State, Look, KeepsUsers, OnlineLook, OnlyOf, Streaming;
      var su := GetUser(origin);
      ListFacts(calm);
      NicksAreKeys(calm);
      if su == null {
        NobodyQuits(origin);
        StreamingNow();
        return;
      }
      TableFacts(origin, calm);
      UserFacts(su, calm);
      NickLook(su);
      ghost var before := Look();
      assert forall i | 0 <= i < |su.chatUsers| :: su.chatUsers[i] in members;
      SetIsOnline(su, false, calm);
      OfflineQuits(before, su);
      StreamingNow();
    }

    lemma NobodyQuits(nick: string)
      ensures KeepsUsers(Look(), Look(), Some(nick)) && OnlyOf(Look(), nick)
    {
    }

    lemma OfflineQuits(a: Picture, su: SrnServerUser)
      requires OnlineLook(a, Look(), su, false)
      ensures Look() == a.(users := Look().users, members := Look().members)
      ensures su in a.users && KeepsUsers(a, Look(), Some(a.users[su].0)) && OnlyOf(a, su.nick)
    {
    }

    lemma TableFacts(nick: string, calm: bool)
      requires State(calm) && nick in userTable
      ensures userTable[nick] in users && userTable[nick].nick == nick
      ensures forall u <- users | u.nick == nick :: u == userTable[nick]
    {
    }

    // Who has the new nick, or one that differs from it in case only, is not needed.
    ghost predicate Spared(origin: string, nick: string)
      reads this`users, users`nick, this`user, this`anonymous, users`chatUsers
    {
      forall u <- users | u.nick != origin && SameName(u.nick, nick) :: u.nick == nick && Idle(u)
    }

    // Nobody is freed who is in a chat.
    twostate predicate SparesMembers()
      reads this`users, users`chatUsers
    {
      users <= old(users) && forall u <- old(users) | old(u.chatUsers) != [] :: u in users
    }

    /** Who had the old nick has the new one and everybody else keeps it; nobody in a chat is
      * freed, and chats stay as they are. */
    twostate predicate Renames(origin: string, nick: string)
      reads *
    {
      && Look() == old(Look()).(users := Look().users) && SparesMembers()
      && (old(origin in userTable) ==> nick in userTable && userTable[nick] == old(userTable[origin]))
      && (forall u <- old(users) ::
            u.nick == (if old(u.nick) == origin then nick else old(u.nick)) && u.isOnline == old(u.isOnline))
    }

    /** NICK: the new nick is nobody else's, or that of somebody who is in no chat and is
      * freed. */
    method OnNick(origin: string, nick: string, ghost calm: bool)
      requires irc.stream && State(calm) && Spared(origin, nick)
      modifies this`userTable, this`users, users`nick
      ensures Streaming() && State(calm) && Grows()
      ensures Renames(origin, nick)
    {
      hide State, Look;
      ListFacts(calm);
      var su := GetUser(origin);
      if su == null {
        return;
      }
      TableFacts(origin, calm);
      Renick(su, nick, calm);
      NickFacts(su, calm);
    }

    /** The program's user has the nick it was given; everybody else keeps it, nobody in a
      * chat is freed, and chats stay as they are. */
    twostate predicate Greets(nick: string)
      reads *
    {
      && Look() == old(Look()).(users := Look().users) && SparesMembers() && user == old(user) && user.nick == nick
      && (forall u <- old(users) | u != user :: u.nick == old(u.nick) && u.isOnline == old(u.isOnline))
    }

    /** The nick the server gave the program, in a welcome. */
    method OnWelcome(nick: string, ghost calm: bool)
      requires irc.stream && State(calm) && Cased(user, nick) && Replaceable(user, nick)
      modifies this`userTable, this`users, users`nick
      ensures Streaming() && State(calm) && Grows() && Greets(nick)
    {
      hide State, Look;
      ListFacts(calm);
      Renick(user, nick, calm);
    }

    method Renick(u: SrnServerUser, nick: string, ghost calm: bool)
      requires State(calm) && u in users && Cased(u, nick) && Replaceable(u, nick)
      modifies this`userTable, this`users, u`nick
      ensures State(calm) && Grows() && u.nick == nick && u in users
      ensures SparesMembers()
      ensures Look() == old(Look()).(users := Look().users)
    {
      hide Base, Mine, Listed, Present, Calm;
      var ok := Rename(u, nick);
      StillPresent();
    }

    // Who is in no chat may have gone.
    twostate lemma {:induction false} StillPresent()
      requires old(Present()) && Base() && chats == old(chats) && users <= old(users) && members == old(members)
      requires forall d <- chats :: d.userList == old(d.userList) && d.isJoined == old(d.isJoined)
      requires forall u <- users :: u.isOnline == old(u.isOnline)
      requires forall cu <- members :: cu.isJoined == old(cu.isJoined)
      ensures Present() && (old(Calm()) ==> Calm())
    {
      hide Tabled, Distinct, Views, SrnChat.View;
      assert forall d <- chats :: InChat(d);
    }

    // The type a mode gives.
    static function TypeOf(mode: string): UserType
      requires |mode| >= 2
    {
      if mode[0] != '+' then Chigua
      else match mode[1]
        case 'q' => Owner
        case 'a' => Admin
        case 'o' => FullOp
        case 'h' => HalfOp
        case 'v' => Voiced
        case _ => Chigua
    }

    /** The letters of the modes of users. */
    static lemma ModeLetters(mode: string)
      requires |mode| >= 2
      ensures TypeOf(mode).Owner? <==> "+q" <= mode
      ensures TypeOf(mode).Admin? <==> "+a" <= mode
      ensures TypeOf(mode).FullOp? <==> "+o" <= mode
      ensures TypeOf(mode).HalfOp? <==> "+h" <= mode
      ensures TypeOf(mode).Voiced? <==> "+v" <= mode
    {
      assert mode[..2] == [mode[0], mode[1]];
    }

    // Somebody of that nick is in the chat, with that type.
    ghost predicate Typed(c: SrnChat, nick: string, t: UserType)
      reads c`userList, c.userList`utype, set cu <- c.userList :: cu.srvUser`nick
    {
      exists cu <- c.userList :: cu.srvUser.nick == nick && cu.utype == t
    }

    /** Who sets the mode is known in the chat, and the user it names has the type it
      * gives; nobody joins or leaves, and nobody else changes. */
    twostate predicate Modes(origin: string, chan: string, mode: string, arg: string)
      reads *
    {
      var a, b := old(Look()), Look();
      && KeepsOthers(a, b, chan) && KeepsOwn(a, b) && KeepsList(a, b) && KeepsJoined(a, b) && KeepsUsers(a, b, None)
      && KeepsPresence(a, b) && OnlyMembers(a, arg, chan) && (|mode| < 2 ==> KeepsMembers(a, b, Nobody))
      && (forall c <- chatList | SameName(c.name, chan) ::
            Knows(c, origin) && (|mode| >= 2 ==> Typed(c, arg, TypeOf(mode))))
    }

    /** MODE with an argument: the first mode is taken for one of a user. */
    method OnMode(origin: string, chan: string, mode: string, arg: string, ghost calm: bool)
      requires irc.stream && State(calm) && Consistent(origin) && Consistent(arg)
      requires SameName(origin, arg) ==> origin == arg
      modifies this`userTable, this`users, this`members, chats`userList, users`chatUsers, lists, members
      ensures Streaming() && State(calm) && Grows()
      ensures Modes(origin, chan, mode, arg)
    {
      hide State, SameName, Typed, Knows, Streaming, Consistent, Look, KeepsChat, KeepsOthers, KeepsOwn, KeepsRest;
      hide KeepsUsers, KeepsJoined, KeepsAll, KeepsMembers, KeepsList, Within, Sane, Near, OnlyMembers, OnlyNamed;
      hide Left, Departed, Kicked, OnlyOf, KeepsPresence;
      ghost var before := Look();
      ListFacts(calm);
      SaneLook(calm);
      ListedLook();
      NothingOnly(arg, chan, false);
      NothingMore();
      var c := GetChat(chan);
      if c == null {
        NothingIsNear(before, chan, null, None);
        NearParts(before, before, chan, null, None);
        StreamingNow();
        return;
      }
      OnlyChat(c, chan, calm);
      ChatFacts(c, calm);
      ModeIn(c, origin, mode, arg, calm);
      ListedLook();
      RetypedParts(before, c, chan, arg, |mode| < 2);
      StreamingNow();
    }

    // What a mode leaves, seen from outside.
    ghost predicate Retyped(a: Picture, c: SrnChat, nick: string, none: bool)
      reads this, Look.reads(), set cu <- a.members.Keys :: cu.srvUser`nick
    {
      && Within(a, Look(), c, if none then Nobody else Those(null, c), true) && KeepsPresence(a, Look())
      && OnlyMembers(a, nick, c.name)
    }

    lemma RetypedParts(a: Picture, c: SrnChat, name: string, nick: string, none: bool)
      requires Retyped(a, c, nick, none) && Sane(a) && c in a.listed && SameName(c.name, name)
      ensures KeepsOthers(a, Look(), name) && KeepsOwn(a, Look()) && KeepsUsers(a, Look(), None)
      ensures KeepsList(a, Look()) && KeepsJoined(a, Look()) && KeepsPresence(a, Look())
      ensures OnlyMembers(a, nick, name) && (none ==> KeepsMembers(a, Look(), Nobody))
    {
      WithinIsNear(a, Look(), c, if none then Nobody else Those(null, c), true, name);
      forall d: SrnChat | SameName(d.name, c.name) ensures SameName(d.name, name) {
        SameNameBack(c.name, name);
        SameNameThrough(d.name, c.name, name);
      }
    }

    lemma NothingMore()
      ensures KeepsPresence(Look(), Look()) && KeepsMembers(Look(), Look(), Nobody)
    {
    }

    method ModeIn(c: SrnChat, origin: string, mode: string, arg: string, ghost calm: bool)
      requires State(calm) && c in chats && Consistent(origin) && Consistent(arg)
      requires SameName(origin, arg) ==> origin == arg
      modifies this`userTable, this`users, this`members, c`userList, c.list, users`chatUsers, members
      ensures State(calm) && Grows() && Knows(c, origin) && (|mode| >= 2 ==> Typed(c, arg, TypeOf(mode)))
      ensures Retyped(old(Look()), c, arg, |mode| < 2)
    {
      hide State, SameName, Typed, Look, KeepsChat, KeepsOthers, KeepsOwn, KeepsRest, KeepsUsers, KeepsJoined;
      hide KeepsAll, KeepsMembers, KeepsList, Within, Sane, Near, OnlyMembers, OnlyNamed, Left, Departed, Kicked;
      hide OnlyOf, KeepsPresence, Retyped;
      ghost var before := Look();
      var _ := Introduce(c, origin, calm);
      if |mode| < 2 {
        MetIsRetyped(before, c, arg);
      } else {
        ghost var between := Look();
        Assign(c, arg, TypeOf(mode), calm);
        MetThenRetyped(before, between, c, arg);
      }
    }

    lemma MetIsRetyped(a: Picture, c: SrnChat, nick: string)
      requires Within(a, Look(), c, Nobody, true)
      ensures Retyped(a, c, nick, true)
    {
    }

    lemma MetThenRetyped(a: Picture, b: Picture, c: SrnChat, nick: string)
      requires Within(a, b, c, Nobody, true) && Retyped(b, c, nick, false)
      ensures Retyped(a, c, nick, false)
    {
      WithinThrough(a, b, Look(), c, Nobody, Those(null, c), true);
      PresenceThrough(a, b, Look());
    }

    method Assign(c: SrnChat, nick: string, t: UserType, ghost calm: bool)
      requires State(calm) && c in chats && Consistent(nick)
      modifies this`userTable, this`users, this`members, c`userList, c.list, users`chatUsers, members
      ensures State(calm) && Grows() && Typed(c, nick, t) && Retyped(old(Look()), c, nick, false)
      ensures forall n | old(Knows(c, n)) :: Knows(c, n)
    {
      hide State, SameName, Look, KeepsChat, KeepsOthers, KeepsOwn, KeepsRest, KeepsUsers, KeepsJoined, KeepsAll;
      hide KeepsMembers, KeepsList, Within, Sane, Near, OnlyMembers, OnlyNamed, Left, Departed, Kicked, OnlyOf;
      hide KeepsPresence, Retyped;
      ghost var before := Look();
      var cu := Introduce(c, nick, calm);
      ghost var between := Look();
      SaneLook(calm);
      Retype(cu, t, calm);
      RetypedOne(before, between, c, cu.srvUser);
    }

    lemma RetypedOne(a: Picture, b: Picture, c: SrnChat, user: SrnServerUser)
      requires Within(a, b, c, Nobody, true) && Sane(b)
      requires Look() == b.(members := Look().members) && KeepsMembers(b, Look(), Those(user, c))
      requires KeepsPresence(b, Look())
      ensures Retyped(a, c, user.nick, false)
    {
      MembersWithin(b, Look(), c, Those(user, c));
      WithinWider(b, Look(), c, Those(user, c), Those(null, c), true, true);
      WithinThrough(a, b, Look(), c, Nobody, Those(null, c), true);
      PresenceThrough(a, b, Look());
      SameNameBack(c.name, c.name);
    }

    /** The user is online and in the chat, with its type; nobody else changes. */
    twostate predicate Names(chan: string, nick: string, t: UserType)
      reads *
    {
      var a, b := old(Look()), Look();
      && KeepsOthers(a, b, chan) && KeepsOwn(a, b) && KeepsList(a, b) && KeepsJoined(a, b)
      && KeepsUsers(a, b, Some(nick)) && OnlyMembers(a, nick, chan)
      && (forall c <- chatList | SameName(c.name, chan) :: Joined(c, nick) && Typed(c, nick, t))
    }

    /** One nick of a NAMES reply, with its type. */
    method OnName(chan: string, nick: string, t: UserType, ghost calm: bool)
      requires irc.stream && State(calm) && Consistent(nick)
      requires calm ==> forall c <- chatList | SameName(c.name, chan) :: c.isJoined
      modifies this`userTable, this`users, this`members, chats`userList, users`isOnline, users`chatUsers, lists, members
      ensures Streaming() && State(calm) && Grows()
      ensures Names(chan, nick, t)
    {
      hide State, SameName, Typed, Joined, Streaming, Consistent, Look, KeepsChat, KeepsOthers, KeepsOwn;
      hide KeepsRest, KeepsUsers, KeepsJoined, KeepsAll, KeepsMembers, KeepsList, Within, Sane, Near, OnlyMembers;
      hide OnlyNamed, Left, Departed, Kicked, OnlyOf, KeepsPresence, Retyped;
      ghost var before := Look();
      SaneLook(calm);
      ListedLook();
      NothingOnly(nick, chan, false);
      var c := GetChat(chan);
      if c == null {
        NothingIsNear(before, chan, null, Some(nick));
        NearParts(before, before, chan, null, Some(nick));
        StreamingNow();
        return;
      }
      ListFacts(calm);
      OnlyChat(c, chan, calm);
      ChatFacts(c, calm);
      NameIn(c, nick, t, calm);
      ListedLook();
      NamedParts(before, c, chan, nick);
      StreamingNow();
    }

    // What a name leaves, seen from outside.
    ghost predicate Named(a: Picture, c: SrnChat, nick: string)
      reads this, Look.reads(), set cu <- a.members.Keys :: cu.srvUser`nick
    {
      && KeepsRest(a, Look(), c) && KeepsList(a, Look()) && KeepsJoined(a, Look()) && KeepsUsers(a, Look(), Some(nick))
      && OnlyMembers(a, nick, c.name)
    }

    lemma NamedParts(a: Picture, c: SrnChat, name: string, nick: string)
      requires Named(a, c, nick) && Sane(a) && c in a.listed && SameName(c.name, name)
      ensures KeepsOthers(a, Look(), name) && KeepsOwn(a, Look()) && KeepsUsers(a, Look(), Some(nick))
      ensures KeepsList(a, Look()) && KeepsJoined(a, Look()) && OnlyMembers(a, nick, name)
    {
      forall d: SrnChat | SameName(d.name, c.name) ensures SameName(d.name, name) {
        SameNameBack(c.name, name);
        SameNameThrough(d.name, c.name, name);
      }
    }

    lemma OnlineThenNamed(a: Picture, b: Picture, c: SrnChat, user: SrnServerUser)
      requires Sane(a) && b == a.(users := b.users) && KeepsUsers(a, b, Some(user.nick))
      requires Within(b, Look(), c, Those(user, c), true)
      ensures Named(a, c, user.nick)
    {
      SameNameBack(c.name, c.name);
    }

    method NameIn(c: SrnChat, nick: string, t: UserType, ghost calm: bool)
      requires State(calm) && c in chats && !c.kind.ServerChat? && Consistent(nick) && (calm ==> c.isJoined)
      modifies this`userTable, this`users, this`members, c`userList, users`isOnline, users`chatUsers, lists, members
      ensures State(calm) && Grows() && Joined(c, nick) && Typed(c, nick, t) && Named(old(Look()), c, nick)
    {
      hide State, SameName, Joined, Typed, Look, KeepsChat, KeepsOthers, KeepsOwn, KeepsRest, KeepsUsers;
      hide KeepsJoined, KeepsAll, KeepsMembers, KeepsList, Within, Sane, Near, OnlyMembers, OnlyNamed, Left;
      hide Departed, Kicked, OnlyOf, KeepsPresence, Retyped, Named;
      SaneLook(calm);
      ghost var before := Look();
      var su := Greet(nick, calm);
      ghost var between := Look();
      ChatFacts(c, calm);
      Name(c, su, t, calm);
      OnlineThenNamed(before, between, c, su);
    }

    method Name(c: SrnChat, su: SrnServerUser, t: UserType, ghost calm: bool)
      requires State(calm) && c in chats && !c.kind.ServerChat? && su in users && su.isOnline && (calm ==> c.isJoined)
      modifies c`userList, c.list, su`chatUsers, members, this`members
      ensures State(calm) && Grows() && Joined(c, su.nick) && Typed(c, su.nick, t)
      ensures Within(old(Look()), Look(), c, Those(su, c), true)
    {
      hide State, SameName, Look, KeepsChat, KeepsOthers, KeepsOwn, KeepsRest, KeepsUsers, KeepsJoined, KeepsAll;
      hide KeepsMembers, KeepsList, Within, Sane, Near, OnlyMembers, OnlyNamed, Left, Departed, Kicked, OnlyOf;
      hide KeepsPresence, Retyped, Named;
      ghost var before := Look();
      ChatFacts(c, calm);
      var cu := Meet(c, su, calm);
      ghost var met := Look();
      SaneLook(calm);
      ChatFacts(c, calm);
      Mark(cu, true, calm);
      ghost var marked := Look();
      SaneLook(calm);
      Retype(cu, t, calm);
      MembersWithin(met, marked, c, Those(su, c));
      MembersWithin(marked, Look(), c, Those(su, c));
      WithinThrough(met, marked, Look(), c, Those(su, c), Those(su, c), true);
      WithinThrough(before, met, Look(), c, Nobody, Those(su, c), true);
    }

    /** The sender is known in the dialogue with it, which is open afterwards, or for a
      * service without one in the server's own chat; nothing else changes. */
    twostate predicate Writes(origin: string, fromService: bool)
      reads *
    {
      var a, b := old(Look()), Look();
      && KeepsUsers(a, b, None) && KeepsMembers(a, b, Nobody) && KeepsJoined(a, b) && a.listed <= b.listed
      && (forall c <- chatList | SameName(c.name, origin) :: Knows(c, origin))
      && if fromService && !exists c <- a.listed :: SameName(c.name, origin)
         then KeepsList(a, b) && KeepsListed(a, b) && chat != null && Knows(chat, origin)
         else KeepsOthers(a, b, origin) && KeepsOwn(a, b) && exists c <- chatList :: SameName(c.name, origin)
    }

    /** A private message opens a dialogue with its sender; a service's goes to its
      * chat, if there is one, or to the server's. */
    method OnPrivmsg(origin: string, fromService: bool, ghost calm: bool) returns (c: SrnChat)
      requires irc.stream && State(calm) && Consistent(origin)
      modifies this`chats, this`chatList, this`chat, this`userTable, this`users, this`lists, this`members
      modifies users`chatUsers, chats`userList
      ensures Streaming() && State(calm) && Grows() && Writes(origin, fromService)
      ensures Knows(c, origin) && c in chats && (c == chat || (c in chatList && SameName(c.name, origin)))
    {
      hide State, SameName, Knows, Streaming, Look, KeepsChat, KeepsOthers, KeepsOwn, KeepsRest, KeepsUsers;
      hide KeepsJoined, KeepsAll, KeepsMembers, KeepsList, Within, Sane, Near, OnlyMembers, OnlyNamed, Left;
      hide Departed, Kicked, OnlyOf, KeepsPresence, Retyped, Named, KeepsListed;
      ghost var before := Look();
      SaneLook(calm);
      ListedLook();
      var su := Know(origin, calm);
      ghost var known := Look();
      c := Correspondence(origin, fromService, calm);
      ghost var added := Look();
      SaneLook(calm);
      ListedLook();
      Enter(c, su, calm);
      AddedThenWithin(before, known, added, Look(), c, origin);
      ListedLook();
      if c in chatList {
        OnlyChat(c, origin, calm);
      } else {
        OwnParts(added, Look(), c);
      }
      StreamingNow();
    }

    method Correspondence(origin: string, fromService: bool, ghost calm: bool) returns (c: SrnChat)
      requires State(calm) && Consistent(origin)
      modifies this`chats, this`chatList, this`chat, this`userTable, this`users, this`lists, this`members
      modifies users`chatUsers
      ensures State(calm) && Grows() && c in chats && old(users) <= users
      ensures KeepsAll(old(Look()), Look()) && KeepsUsers(old(Look()), Look(), None)
      ensures KeepsMembers(old(Look()), Look(), Nobody) && (fromService ==> Look() == old(Look()))
      ensures if c in chatList then SameName(c.name, origin)
              else c == chat && fromService && forall d <- chatList :: !SameName(d.name, origin)
    {
      hide State, SameName, Look, KeepsAll, KeepsUsers, KeepsMembers;
      if !fromService {
        var _ := Open(origin, false, calm);
      } else {
        NothingAdded();
      }
      ListFacts(calm);
      var found := GetChat(origin);
      c := if found != null then found else chat;
    }

    lemma NothingAdded()
      ensures KeepsAll(Look(), Look()) && KeepsUsers(Look(), Look(), None) && KeepsMembers(Look(), Look(), Nobody)
    {
    }

    /** Who speaks is known in the chat; nobody joins or leaves, and other chats stay as
      * they are. */
    twostate predicate Speaks(origin: string, chan: string)
      reads *
    {
      var a, b := old(Look()), Look();
      && KeepsOthers(a, b, chan) && KeepsOwn(a, b) && KeepsList(a, b) && KeepsJoined(a, b) && KeepsUsers(a, b, None)
      && KeepsMembers(a, b, Nobody) && forall c <- chatList | SameName(c.name, chan) :: Knows(c, origin)
    }

    /** What somebody says or does in a chat (TOPIC, a message, a notice, a CTCP request)
      * makes it known there; nobody joins. */
    method OnChannel(origin: string, chan: string, ghost calm: bool)
      requires irc.stream && State(calm) && Consistent(origin)
      modifies this`userTable, this`users, this`members, chats`userList, users`chatUsers
      ensures Streaming() && State(calm) && Grows()
      ensures Speaks(origin, chan)
      ensures forall c <- chats, nick | old(Knows(c, nick)) :: Knows(c, nick)
    {
      hide State, SameName, Knows, Streaming, Look, KeepsChat, KeepsOthers, KeepsOwn, KeepsRest, KeepsUsers;
      hide KeepsJoined, KeepsAll, KeepsMembers, KeepsList, Within, Sane, Near, OnlyMembers, OnlyNamed, Left;
      hide Departed, Kicked, OnlyOf, KeepsPresence, Retyped, Named, KeepsListed;
      ghost var before := Look();
      SaneLook(calm);
      ListedLook();
      NothingMore();
      var c := GetChat(chan);
      if c == null {
        NothingIsNear(before, chan, null, None);
        NearParts(before, before, chan, null, None);
        StreamingNow();
        return;
      }
      ListFacts(calm);
      OnlyChat(c, chan, calm);
      Speak(c, origin, calm);
      ListedLook();
      WithinIsNear(before, Look(), c, Nobody, true, chan);
      NearParts(before, Look(), chan, null, None);
      NobodyElse(before, Look(), c);
      StreamingNow();
    }

    // Somebody of that nick is in the list of the chat.
    ghost predicate Knows(c: SrnChat, nick: string)
      reads c`userList, set cu <- c.userList :: cu.srvUser`nick
    {
      exists cu <- c.userList :: cu.srvUser.nick == nick
    }

    method Speak(c: SrnChat, nick: string, ghost calm: bool)
      requires State(calm) && c in chats && Consistent(nick)
      modifies this`userTable, this`users, this`members, c`userList, users`chatUsers
      ensures State(calm) && Grows() && Knows(c, nick) && Consistent(nick)
      ensures forall n | old(Knows(c, n)) :: Knows(c, n)
      ensures Within(old(Look()), Look(), c, Nobody, true)
    {
      hide State, SameName, Look, KeepsChat, KeepsOthers, KeepsOwn, KeepsRest, KeepsUsers, KeepsJoined, KeepsAll;
      hide KeepsMembers, KeepsList, Within, Sane, Near, OnlyMembers, OnlyNamed, Left, Departed, Kicked, OnlyOf;
      hide KeepsPresence, Retyped, Named, KeepsListed;
      var _ := Introduce(c, nick, calm);
    }

    /** Who invites is known in the chat if it is open, or else in the dialogue with it, which
      * is open afterwards; nothing else changes. */
    twostate predicate Invites(origin: string, chan: string)
      reads *
    {
      var a, b := old(Look()), Look();
      var name := if exists c <- a.listed :: SameName(c.name, chan) then chan else origin;
      && KeepsUsers(a, b, None) && KeepsMembers(a, b, Nobody) && KeepsJoined(a, b) && a.listed <= b.listed
      && KeepsOthers(a, b, name) && KeepsOwn(a, b) && (exists c <- chatList :: SameName(c.name, name))
      && forall c <- chatList | SameName(c.name, name) :: Knows(c, origin)
    }

    /** INVITE: shown in the chat if it is open, or else in a dialogue with who invites. */
    method OnInvite(origin: string, chan: string, ghost calm: bool) returns (c: SrnChat)
      requires irc.stream && State(calm) && Consistent(origin)
      modifies this`chats, this`chatList, this`chat, this`userTable, this`users, this`lists, this`members
      modifies users`chatUsers, chats`userList
      ensures Streaming() && State(calm) && Grows() && Invites(origin, chan) && c in chatList && Knows(c, origin)
    {
      hide State, SameName, Knows, Streaming, Look, KeepsChat, KeepsOthers, KeepsOwn, KeepsRest, KeepsUsers;
      hide KeepsJoined, KeepsAll, KeepsMembers, KeepsList, Within, Sane, Near, OnlyMembers, OnlyNamed, Left;
      hide Departed, Kicked, OnlyOf, KeepsPresence, Retyped, Named, KeepsListed;
      ghost var before := Look();
      ListedLook();
      ghost var name := if exists d <- before.listed :: SameName(d.name, chan) then chan else origin;
      c := Invite(origin, chan, name, calm);
      ListedLook();
      OnlyChat(c, name, calm);
      StreamingNow();
    }

    method Invite(origin: string, chan: string, ghost name: string, ghost calm: bool) returns (c: SrnChat)
      requires State(calm) && Consistent(origin)
      requires name == if exists d <- Look().listed :: SameName(d.name, chan) then chan else origin
      modifies this`chats, this`chatList, this`chat, this`userTable, this`users, this`lists, this`members
      modifies users`chatUsers, chats`userList
      ensures State(calm) && Grows() && c in chatList && Knows(c, origin) && SameName(c.name, name)
      ensures KeepsOthers(old(Look()), Look(), name) && KeepsOwn(old(Look()), Look())
      ensures KeepsJoined(old(Look()), Look())
      ensures KeepsUsers(old(Look()), Look(), None) && KeepsMembers(old(Look()), Look(), Nobody)
      ensures old(Look()).listed <= Look().listed
    {
      hide State, SameName, Knows, Streaming, Look, KeepsChat, KeepsOthers, KeepsOwn, KeepsRest, KeepsUsers;
      hide KeepsJoined, KeepsAll, KeepsMembers, KeepsList, Within, Sane, Near, OnlyMembers, OnlyNamed, Left;
      hide Departed, Kicked, OnlyOf, KeepsPresence, Retyped, Named, KeepsListed;
      ghost var before := Look();
      SaneLook(calm);
      var su;
      su, c := KnownAnd(origin, chan, calm);
      ghost var added := Look();
      SaneLook(calm);
      SameUsers(before, before, None);
      ListedLook();
      ListFacts(calm);
      Enter(c, su, calm);
      AddedThenWithin(before, before, added, Look(), c, name);
      ListedLook();
    }

    method Enter(c: SrnChat, su: SrnServerUser, ghost calm: bool)
      requires State(calm) && c in chats && su in users
      modifies c`userList, su`chatUsers, this`members
      ensures State(calm) && Grows() && Knows(c, su.nick)
      ensures Within(old(Look()), Look(), c, Nobody, true)
    {
      hide State, Look, KeepsChat, KeepsOthers, KeepsOwn, KeepsRest, KeepsUsers, KeepsJoined, KeepsAll;
      hide KeepsMembers, KeepsList, Within, Sane, Near, OnlyMembers, OnlyNamed, Left, Departed, Kicked, OnlyOf;
      hide KeepsPresence, Retyped, Named, KeepsListed;
      ChatFacts(c, calm);
      var _ := Meet(c, su, calm);
    }

    method KnownAnd(origin: string, chan: string, ghost calm: bool) returns (su: SrnServerUser, c: SrnChat)
      requires State(calm) && Consistent(origin)
      modifies this`chats, this`chatList, this`chat, this`userTable, this`users, this`lists, this`members
      modifies users`chatUsers
      ensures State(calm) && Grows() && c in chatList && su in users && su.nick == origin
      ensures SameName(c.name, if exists d <- old(Look()).listed :: SameName(d.name, chan) then chan else origin)
      ensures KeepsAll(old(Look()), Look()) && KeepsUsers(old(Look()), Look(), None)
      ensures KeepsMembers(old(Look()), Look(), Nobody)
    {
      hide State, SameName, Look, KeepsAll, KeepsUsers, KeepsMembers;
      ghost var before := Look();
      ListedLook();
      su := Know(origin, calm);
      ghost var known := Look();
      ListedLook();
      c := ChatOrDialogue(origin, chan, calm);
      KnownThenAdded(before, known, Look());
    }

    method ChatOrDialogue(origin: string, chan: string, ghost calm: bool) returns (c: SrnChat)
      requires State(calm) && Consistent(origin)
      modifies this`chats, this`chatList, this`chat, this`userTable, this`users, this`lists, this`members
      modifies users`chatUsers
      ensures State(calm) && Grows() && c in chatList && old(users) <= users
      ensures SameName(c.name, if old(exists d <- chatList :: SameName(d.name, chan)) then chan else origin)
      ensures KeepsAll(old(Look()), Look()) && KeepsUsers(old(Look()), Look(), None)
      ensures KeepsMembers(old(Look()), Look(), Nobody)
    {
      hide State, SameName, Look, KeepsAll, KeepsUsers, KeepsMembers;
      var found := GetChat(chan);
      if found == null {
        var _ := Open(origin, false, calm);
        found := GetChat(origin);
      } else {
        NothingAdded();
      }
      c := found;
    }

    /** Who replies is known in the server's own chat, and in the chat the reply is about;
      * nothing else changes. */
    twostate predicate Replies(origin: string, about: Option<string>)
      reads *
    {
      var a, b := old(Look()), Look();
      && KeepsList(a, b) && KeepsJoined(a, b) && KeepsUsers(a, b, None) && KeepsMembers(a, b, Nobody)
      && chat != null && Knows(chat, origin)
      && if about.None? then KeepsListed(a, b)
         else KeepsOthers(a, b, about.value) && forall c <- chatList | SameName(c.name, about.value) :: Knows(c, origin)
    }

    /** A numeric reply: the server is known in its own chat, and in the chat the reply is
      * about. */
    method OnNumeric(origin: string, about: Option<string>, ghost calm: bool)
      requires irc.stream && State(calm) && Consistent(origin)
      modifies this`userTable, this`users, this`members, chats`userList, users`chatUsers
      ensures Streaming() && State(calm) && Grows() && Replies(origin, about)
    {
      hide State, SameName, Knows, Streaming, Look, KeepsChat, KeepsOthers, KeepsOwn, KeepsRest, KeepsUsers;
      hide KeepsJoined, KeepsAll, KeepsMembers, KeepsList, Within, Sane, Near, OnlyMembers, OnlyNamed, Left;
      hide Departed, Kicked, OnlyOf, KeepsPresence, Retyped, Named, KeepsListed;
      ghost var before := Look();
      SaneLook(calm);
      ListedLook();
      ListFacts(calm);
      Speak(chat, origin, calm);
      ghost var between := Look();
      if about.None? {
        OwnParts(before, between, chat);
      } else {
        OnChannel(origin, about.value, calm);
        OwnThenOthers(before, between, Look(), chat, about.value);
      }
      StreamingNow();
    }

    /** The stream is gone: no chat is joined any more, and nobody is in one, but for
      * what the server said of chats it had not let the program into. */
    method OnDisconnect(ghost calm: bool)
      requires !irc.stream && State(calm)
      modifies chats`isJoined, lists, members
      ensures Streaming() && State(calm)
      ensures forall c <- chatList :: !c.isJoined && (calm ==> c.Empty())
    {
      hide State;
      ListFacts(calm);
      for i := 0 to |chatList|
        invariant State(calm) && forall j | 0 <= j < i :: !chatList[j].isJoined
      {
        ChatFacts(chatList[i], calm);
        SetChatJoined(chatList[i], false, calm);
      }
      CalmFacts(calm);
    }

    lemma CalmFacts(calm: bool)
      requires State(calm) && forall c <- chatList :: !c.isJoined
      ensures calm ==> forall c <- chatList :: c.Empty()
    {
    }

    lemma NobodyIn(c: SrnChat, calm: bool)
      requires State(calm) && c in chats && !c.isJoined
      ensures calm ==> c.Empty()
    {
    }

    /** Frees the server: first the chats, then the users, who are in no chat by
      * then. */
    method Free()
      requires Whole()
      modifies this, users`chatUsers
      ensures chats == {} && users == {} && userTable == map[]
      ensures forall u <- old(users) :: u.chatUsers == []
    {
      hide Base, Mine;
      while chatList != []
        invariant Whole() && users == old(users)
        decreases |chatList|
      {
        FreeFirst();
      }
      if chat != null {
        FreeOwn();
      }
      FreeUsers();
    }

    method FreeFirst()
      requires Whole() && chatList != []
      modifies this`chatList, this`chats, users`chatUsers
      ensures Whole() && |chatList| < |old(chatList)|
    {
      hide Base, Mine;
      var c := chatList[0];
      chatList := chatList[1..];
      FreeChat(c);
    }

    method FreeOwn()
      requires Whole() && chat != null
      modifies this`chat, this`chats, users`chatUsers
      ensures Whole() && chat == null
    {
      hide Base, Mine;
      var c := chat;
      chat := null;
      FreeChat(c);
    }

    lemma HasChat(us: seq<SrnChatUser>, cs: set<SrnChat>)
      requires forall cu <- us :: cu.chat in cs
      ensures us != [] ==> cs != {}
    {
      if us != [] {
        assert us[0] in us;
      }
    }

    // Every user's list has to be empty when the user is freed.
    method FreeUsers()
      requires Whole() && chatList == [] && chat == null
      modifies this`users, this`userTable
      ensures chats == {} && users == {} && userTable == map[]
      ensures forall u <- old(users) :: u.chatUsers == []
    {
      forall u <- users ensures u.chatUsers == [] {
        assert OfUser(u);
        HasChat(u.chatUsers, chats);
      }
      users, userTable := {}, map[];
    }

    // A chat is gone from both sides.
    twostate lemma {:induction false} LinkedShrinks(c: SrnChat)
      requires old(Linked()) && c in old(chats) && chats == old(chats) - {c} && users == old(users)
      requires forall d <- old(chats) :: d.userList == old(d.userList)
      requires forall u <- old(users) :: c.Left(u.chatUsers, old(u.chatUsers), |c.userList|)
      ensures Linked()
    {
      assert c.userList[..|c.userList|] == c.userList;
      forall d <- chats ensures InChat(d) {
        assert old(InChat(d));
      }
      forall u <- users ensures OfUser(u) {
        assert old(OfUser(u));
      }
    }
  }

  twostate predicate Same(v: SrnChatUser)
    reads v
  {
    && v.utype == old(v.utype) && v.isJoined == old(v.isJoined)
    && v.uiType == old(v.uiType) && v.uiList == old(v.uiList) && v.uiStat == old(v.uiStat)
  }
}
