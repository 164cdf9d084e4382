// What the entries hold, in terms of the requests that filed them.
module HandOffTerms {
  import opened HandOff

  // The request files an entry for the account.
  predicate Files(e: Event, account: int)
  {
    || (e.SelectRequest? && e.running && e.account == account)
    || (e.CharSelect? && e.account == account)
    || (e.ChangeMapServer? && e.possible && e.account == account)
  }

  // Until when the account is paid for, as far as the request says so.
  function PaidUntil(e: Event): int
  {
    if e.CharSelect? then e.expiration else 0
  }

  // The sex in the request that filed the entry, or the last one reported since.
  function SexSince(es: seq<Event>, s: nat, account: int): int
    requires s < |es| && Files(es[s], account)
  {
    var n := |es| - 1;
    if s == n then if es[s].SelectRequest? then 0 else es[s].sex
    else if es[n].ChangeSex? && es[n].account == account then es[n].sex
    else SexSince(es[..n], s, account)
  }

  // The account's entry is the one that request s filed.
  ghost predicate Filed(db: Nodes, es: seq<Event>, s: nat, account: int)
    requires s < |es| && Files(es[s], account)
  {
    var e := es[s];
    && account in db
    && db[account] == Node(account, if e.SelectRequest? then 0 else e.char_, e.login1, e.login2,
                           SexSince(es, s, account), PaidUntil(e), e.group, e.ChangeMapServer?)
  }

  lemma MarkTells(db: Nodes, e: Event, account: int)
    ensures var m := Step(db, e).1;
      (m.Issue? || m.Prelim?) && m.account == account <==> Files(e, account)
  {
  }

  // What a request does, it does to the entry of its account only; and one that files nothing
  // leaves it as it is or takes it away, or enters the sex that is reported.
  lemma OnlyItsAccount(db: Nodes, e: Event, account: int)
    ensures var db' := Step(db, e).0;
      && (account != e.account ==>
            (account in db' <==> account in db) && (account in db ==> db'[account] == db[account]))
      && (!Files(e, account) && account in db' ==>
            account in db && db'[account] == if e.ChangeSex? && account == e.account then db[account].(sex := e.sex)
                                             else db[account])
  {
  }

  lemma StepFiles(db: Nodes, es: seq<Event>, e: Event, account: int)
    requires Files(e, account)
    ensures Filed(Step(db, e).0, es + [e], |es|, account)
  {
  }

  lemma StepKeepsFiled(db: Nodes, es: seq<Event>, s: nat, e: Event, account: int)
    requires s < |es| && Files(es[s], account) && Filed(db, es, s, account) && !Touches(Step(db, e).1, account)
    ensures Filed(Step(db, e).0, es + [e], s, account)
  {
    assert (es + [e])[..|es|] == es && !Files(e, account) by {
      MarkTells(db, e, account);
    }
  }

  lemma OtherwiseGone(db: Nodes, e: Event, account: int)
    requires !Files(e, account)
    ensures Touches(Step(db, e).1, account) || account !in db ==> account !in Step(db, e).0
  {
  }

  // If the last thing that happened to the account was that an entry was filed for it, that is
  // the entry, and otherwise there is none.
  ghost predicate LastFiled(db: Nodes, marks: seq<Mark>, es: seq<Event>, account: int)
  {
    |marks| == |es| &&
    var s := LastTouch(marks, account);
    if s < |es| && Files(es[s], account) then Filed(db, es, s, account) else account !in db
  }

  lemma StepLastFiled(db: Nodes, marks: seq<Mark>, es: seq<Event>, e: Event, account: int)
    requires LastFiled(db, marks, es, account)
    ensures LastFiled(Step(db, e).0, marks + [Step(db, e).1], es + [e], account)
  {
    hide Step, Filed, Files;
    var s := LastTouch(marks, account);
    TouchNow(marks, Step(db, e).1, account);
    MarkTells(db, e, account);
    if Files(e, account) {
      StepFiles(db, es, e, account);
    } else {
      OtherwiseGone(db, e, account);
      if s < |es| && Files(es[s], account) && !Touches(Step(db, e).1, account) {
        StepKeepsFiled(db, es, s, e, account);
      }
    }
  }

  lemma NothingFiled(account: int)
    ensures LastFiled(map[], [], [], account)
  {
  }

  lemma {:induction false} EntryIsFiled(es: seq<Event>, account: int)
    ensures var r := RunAll(map[], es); LastFiled(r.0, r.1, es, account)
  {
    hide LastFiled, Step;
    if es == [] {
      NothingFiled(account);
    } else {
      var n := |es| - 1;
      var r := RunAll(map[], es[..n]);
      EntryIsFiled(es[..n], account);
      StepLastFiled(r.0, r.1, es[..n], es[n], account);
      RunSnoc(map[], es[..n], es[n]);
      assert es[..n] + [es[n]] == es;
    }
  }

  // The request that filed the entry lets the player back in: its logins are the ones that are
  // presented, and it passes what restricts logins.
  ghost predicate LetsIn(e: Event, account: int, login1: int, login2: int, limits: Limits)
  {
    && Files(e, account) && e.login1 == login1 && e.login2 == login2
    && match limits
       case Open => true
       case Maintenance(minGroup) => minGroup <= e.group
       case Paying(now) => now <= PaidUntil(e)
  }

  lemma ConnectsIff(es: seq<Event>, account: int, login1: int, login2: int, running: bool, limits: Limits)
    ensures var r := RunAll(map[], es); var s := LastTouch(r.1, account);
      Connects(r.0, Connect(account, login1, login2, running, limits))
      <==> running && s < |es| && LetsIn(es[s], account, login1, login2, limits)
  {
    EntryIsFiled(es, account);
  }
}
