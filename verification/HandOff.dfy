// Handing a player over from the char server to a map server: entries that vouch for an
// account are put, spent once, and revoked.
module HandOff {

  // An entry. The char id is 0 for a player on the way to character selection.
  datatype Node = Node(account: int, char_: int, login1: int, login2: int, sex: int, expiration: int, group: int,
                       changing: bool)

  // What happens, with what the server knows at that moment: whether it is running, whether
  // it knows the character, and what restricts logins.
  datatype Event =
    // char_parse_frommap_char_select_req
    | SelectRequest(account: int, login1: int, login2: int, group: int, running: bool)
    // char_parse_char_select, when it gets as far as sending the player to a map server
    | CharSelect(account: int, char_: int, login1: int, login2: int, sex: int, expiration: int, group: int)
    // char_parse_frommap_change_map_server
    | ChangeMapServer(account: int, char_: int, login1: int, login2: int, sex: int, group: int, possible: bool)
    // char_parse_frommap_auth_request
    | AuthRequest(account: int, char_: int, login1: int, standalone: bool, running: bool, known: bool)
    // char_parse_char_connect
    | Connect(account: int, login1: int, login2: int, running: bool, limits: Limits)
    // a kick from the login server
    | Kick(account: int)
    // a change of sex from the login server
    | ChangeSex(account: int, sex: int)

  datatype Limits = Open | Maintenance(minGroup: int) | Paying(now: int)

  // What an event does about the account: it issues an entry for a character, or one that
  // is for character selection only; a map server's request is accepted, which spends the
  // entry; the entry is dropped for another reason; or nothing happens to it.
  datatype Mark =
    | Issue(account: int, char_: int, login1: int)
    | Prelim(account: int, login1: int)
    | Accept(account: int, char_: int, login1: int)
    | Drop(account: int)
    | Idle

  type Nodes = map<int, Node>

  predicate Vouches(db: Nodes, account: int, char_: int, login1: int)
  {
    account in db && db[account].account == account && db[account].char_ == char_ && db[account].login1 == login1
  }

  // The login passes the restrictions of the server.
  predicate Admitted(node: Node, limits: Limits)
  {
    match limits
    case Open => true
    case Maintenance(minGroup) => node.group >= minGroup
    case Paying(now) => node.expiration >= now
  }

  predicate Connects(db: Nodes, e: Event)
    requires e.Connect?
  {
    && e.running && e.account in db && db[e.account].account == e.account
    && db[e.account].login1 == e.login1 && db[e.account].login2 == e.login2 && Admitted(db[e.account], e.limits)
  }

  function Step(db: Nodes, e: Event): (Nodes, Mark)
  {
    match e
    case SelectRequest(a, l1, l2, g, running) =>
      if running then (db[a := Node(a, 0, l1, l2, 0, 0, g, false)], Prelim(a, l1)) else (db, Idle)
    case CharSelect(a, c, l1, l2, sex, expiration, g) =>
      (db[a := Node(a, c, l1, l2, sex, expiration, g, false)], Issue(a, c, l1))
    case ChangeMapServer(a, c, l1, l2, sex, g, possible) =>
      if possible then (db[a := Node(a, c, l1, l2, sex, 0, g, true)], Issue(a, c, l1)) else (db, Idle)
    case AuthRequest(a, c, l1, standalone, running, known) =>
      if running && known && !standalone && Vouches(db, a, c, l1) then (db - {a}, Accept(a, c, l1)) else (db, Idle)
    case Connect(a, l1, l2, running, limits) =>
      if Connects(db, e) then (db - {a}, Drop(a)) else (db, Idle)
    case Kick(a) => (db - {a}, Drop(a))
    case ChangeSex(a, sex) =>
      if a in db then (db[a := db[a].(sex := sex)], Idle) else (db, Idle)
  }

  function RunAll(db: Nodes, es: seq<Event>): (r: (Nodes, seq<Mark>))
    ensures |r.1| == |es|
  {
    if es == [] then (db, [])
    else
      var (before, marks) := RunAll(db, es[..|es| - 1]);
      var (after, mark) := Step(before, es[|es| - 1]);
      (after, marks + [mark])
  }

  // The characters that the server knows have positive ids.
  predicate Proper(e: Event)
  {
    e.AuthRequest? && e.known ==> e.char_ > 0
  }

  // ---------- What the entries say about the past ----------

  predicate Touches(m: Mark, account: int)
  {
    m != Idle && m.account == account
  }

  // The last mark that concerns the account, or the number of marks.
  function LastTouch(marks: seq<Mark>, account: int): (t: nat)
    ensures t <= |marks|
    ensures t < |marks| ==> Touches(marks[t], account) && forall k :: t < k < |marks| ==> !Touches(marks[k], account)
    ensures t == |marks| ==> forall k :: 0 <= k < |marks| ==> !Touches(marks[k], account)
  {
    if marks == [] then 0
    else
      var n := |marks| - 1;
      if Touches(marks[n], account) then n
      else
        var t := LastTouch(marks[..n], account);
        if t < n then t else n + 1
  }

  // The entry is what the last mark has left, if it has left one.
  ghost predicate Remembers(db: Nodes, marks: seq<Mark>, account: int)
  {
    var t := LastTouch(marks, account);
    if t < |marks| && marks[t].Issue? then Vouches(db, account, marks[t].char_, marks[t].login1)
    else if t < |marks| && marks[t].Prelim? then Vouches(db, account, 0, marks[t].login1)
    else account !in db
  }

  lemma TouchNow(marks: seq<Mark>, m: Mark, account: int)
    ensures Touches(m, account) ==> LastTouch(marks + [m], account) == |marks|
    ensures !Touches(m, account) ==>
      var t := LastTouch(marks, account);
      LastTouch(marks + [m], account) == if t < |marks| then t else |marks| + 1
  {
    assert (marks + [m])[..|marks|] == marks;
  }

  lemma StepRemembers(db: Nodes, marks: seq<Mark>, e: Event, account: int)
    requires Remembers(db, marks, account)
    ensures Remembers(Step(db, e).0, marks + [Step(db, e).1], account)
  {
    TouchNow(marks, Step(db, e).1, account);
  }

  // Starting without entries, every entry is the last thing that happened to its account.
  lemma {:induction false} RunRemembers(es: seq<Event>, account: int)
    ensures var r := RunAll(map[], es); Remembers(r.0, r.1, account)
  {
    if es != [] {
      var n := |es| - 1;
      RunRemembers(es[..n], account);
      var r := RunAll(map[], es[..n]);
      StepRemembers(r.0, r.1, es[n], account);
    }
  }

  lemma RunSnoc(db: Nodes, es: seq<Event>, e: Event)
    ensures RunAll(db, es + [e]).0 == Step(RunAll(db, es).0, e).0
    ensures RunAll(db, es + [e]).1 == RunAll(db, es).1 + [Step(RunAll(db, es).0, e).1]
  {
    assert (es + [e])[..|es|] == es;
  }

  // ---------- Single use ----------

  // Mark s issues the very entry that mark t spends, and nothing happens to the account in
  // between.
  ghost predicate IsSource(marks: seq<Mark>, s: nat, t: nat)
  {
    && s < t < |marks| && marks[t].Accept?
    && marks[s] == Issue(marks[t].account, marks[t].char_, marks[t].login1)
    && forall k :: s < k < t ==> !Touches(marks[k], marks[t].account)
  }

  lemma {:induction false} MarksOfPrefix(db: Nodes, es: seq<Event>, n: nat)
    requires n <= |es|
    ensures RunAll(db, es[..n]).1 == RunAll(db, es).1[..n]
    ensures n < |es| ==> RunAll(db, es).1[n] == Step(RunAll(db, es[..n]).0, es[n]).1
    decreases |es|
  {
    if n == |es| {
      assert es[..n] == es;
    } else {
      var m := |es| - 1;
      MarksOfPrefix(db, es[..m], if n < m then n else m);
      if n < m {
        assert es[..m][..n] == es[..n] && es[..m][n] == es[n];
      }
    }
  }

  // A request of a map server is accepted exactly if the last thing that happened to the
  // account was that just this was issued, and the server is running and knows the character.
  lemma AcceptedIff(es: seq<Event>, t: nat)
    requires t < |es| && es[t].AuthRequest? && !es[t].standalone && Proper(es[t])
    ensures var marks := RunAll(map[], es).1;
      marks[t].Accept? <==>
        && es[t].running && es[t].known
        && var s := LastTouch(marks[..t], es[t].account);
           s < t && marks[s] == Issue(es[t].account, es[t].char_, es[t].login1)
  {
    MarksOfPrefix(map[], es, t);
    RunRemembers(es[..t], es[t].account);
    var r := RunAll(map[], es[..t]);
    var s := LastTouch(r.1, es[t].account);
    assert r.1 == RunAll(map[], es).1[..t];
  }

  lemma StepMarks(db: Nodes, e: Event)
    ensures Step(db, e).1.Issue? ==> e.CharSelect? || e.ChangeMapServer?
    ensures Step(db, e).1.Accept? ==>
      e.AuthRequest? && !e.standalone && Step(db, e).1 == Accept(e.account, e.char_, e.login1)
  {
  }

  lemma MarkOfEvent(es: seq<Event>, t: nat)
    requires t < |es|
    ensures var m := RunAll(map[], es).1[t];
      && (m.Issue? ==> es[t].CharSelect? || es[t].ChangeMapServer?)
      && (m.Accept? ==>
            es[t].AuthRequest? && !es[t].standalone && m == Accept(es[t].account, es[t].char_, es[t].login1))
  {
    MarksOfPrefix(map[], es, t);
    StepMarks(RunAll(map[], es[..t]).0, es[t]);
  }

  lemma TouchIsSource(marks: seq<Mark>, s: nat, t: nat)
    requires t < |marks| && marks[t].Accept? && s == LastTouch(marks[..t], marks[t].account) && s < t
    requires marks[s] == Issue(marks[t].account, marks[t].char_, marks[t].login1)
    ensures IsSource(marks, s, t)
  {
    assert forall k :: s < k < t ==> marks[..t][k] == marks[k];
  }

  // Every acceptance has a source, which issued just what was asked for.
  lemma EveryAcceptHasSource(es: seq<Event>, t: nat) returns (s: nat)
    requires t < |es| && forall k :: 0 <= k < |es| ==> Proper(es[k])
    requires RunAll(map[], es).1[t].Accept?
    ensures IsSource(RunAll(map[], es).1, s, t) && (es[s].CharSelect? || es[s].ChangeMapServer?)
  {
    var marks := RunAll(map[], es).1;
    MarkOfEvent(es, t);
    AcceptedIff(es, t);
    s := LastTouch(marks[..t], marks[t].account);
    TouchIsSource(marks, s, t);
    MarkOfEvent(es, s);
  }

  // No two acceptances have the same source: an entry is used once.
  lemma SourcesDiffer(marks: seq<Mark>, s: nat, t: nat, u: nat)
    requires IsSource(marks, s, t) && IsSource(marks, s, u)
    ensures t == u
  {
    if t < u {
      assert Touches(marks[t], marks[u].account);
    } else if u < t {
      assert Touches(marks[u], marks[t].account);
    }
  }
}
