// The entries in memory.
module AuthNodes {
  import opened HandOff
  import opened HandOffTerms

  // What a map server is told about a player: the logins, until when the account is paid for,
  // cut to 32 bits, the group, and whether he comes from another map server.
  datatype Reply = AuthOk(login1: int, login2: int, expiration: int, group: int, changing: bool) | AuthFailed

  class CharServer {
    // auth_db
    var authDb: map<int, Node>
    // Everything that has happened.
    ghost var past: seq<Event>

    ghost predicate Valid()
      reads this
    {
      authDb == RunAll(map[], past).0
    }

    constructor ()
      ensures Valid() && past == []
    {
      authDb, past := map[], [];
    }

    // char_parse_frommap_char_select_req
    method SelectRequest(account: int, login1: int, login2: int, group: int, running: bool) returns (ok: bool)
      requires Valid()
      modifies this
      ensures Valid() && past == old(past) + [HandOff.SelectRequest(account, login1, login2, group, running)]
      ensures ok == running
    {
      ghost var e := HandOff.SelectRequest(account, login1, login2, group, running);
      RunSnoc(map[], past, e);
      past := past + [e];
      if running {
        authDb := authDb[account := Node(account, 0, login1, login2, 0, 0, group, false)];
      }
      ok := running;
    }

    // char_parse_char_select, from where the player is sent on
    method CharSelect(account: int, char_: int, login1: int, login2: int, sex: int, expiration: int, group: int)
      requires Valid()
      modifies this
      ensures Valid()
      ensures past == old(past) + [HandOff.CharSelect(account, char_, login1, login2, sex, expiration, group)]
    {
      ghost var e := HandOff.CharSelect(account, char_, login1, login2, sex, expiration, group);
      RunSnoc(map[], past, e);
      past := past + [e];
      authDb := authDb[account := Node(account, char_, login1, login2, sex, expiration, group, false)];
    }

    // char_parse_frommap_change_map_server
    method ChangeMapServer(account: int, char_: int, login1: int, login2: int, sex: int, group: int, possible: bool)
      returns (ok: bool)
      requires Valid()
      modifies this
      ensures Valid() && ok == possible
      ensures past == old(past) + [HandOff.ChangeMapServer(account, char_, login1, login2, sex, group, possible)]
    {
      ghost var e := HandOff.ChangeMapServer(account, char_, login1, login2, sex, group, possible);
      RunSnoc(map[], past, e);
      past := past + [e];
      if possible {
        authDb := authDb[account := Node(account, char_, login1, login2, sex, 0, group, true)];
      }
      ok := possible;
    }

    // char_parse_frommap_auth_request: the answer to a map server. Without standalone, a
    // player is let in if the last thing that happened to the account was that just this was
    // issued, and the answer is what it was issued with.
    method AuthRequest(account: int, char_: int, login1: int, standalone: bool, running: bool, known: bool)
      returns (r: Reply)
      requires Valid() && (known ==> char_ > 0)
      modifies this
      ensures Valid()
      ensures past == old(past) + [HandOff.AuthRequest(account, char_, login1, standalone, running, known)]
      ensures var marks := RunAll(map[], old(past)).1; var s := LastTouch(marks, account);
        && (r.AuthOk? <==>
              running && known && (standalone || (s < |marks| && marks[s] == Issue(account, char_, login1))))
        && (r.AuthOk? && standalone ==> r == AuthOk(0, 0, 0, 0, false))
        && (r.AuthOk? && !standalone ==>
              var e := old(past)[s];
              && Files(e, account) && !e.SelectRequest? && e.char_ == char_
              && r == AuthOk(login1, e.login2, PaidUntil(e) % 0x1_0000_0000, e.group, e.ChangeMapServer?))
      ensures authDb == if r.AuthOk? && !standalone then old(authDb) - {account} else old(authDb)
    {
      ghost var e := HandOff.AuthRequest(account, char_, login1, standalone, running, known);
      RunSnoc(map[], past, e);
      RunRemembers(past, account);
      EntryIsFiled(past, account);
      past := past + [e];
      if running && known && standalone {
        return AuthOk(0, 0, 0, 0, false);
      }
      if running && known && account in authDb {
        var node := authDb[account];
        if node.account == account && node.char_ == char_ && node.login1 == login1 {
          authDb := authDb - {account};
          return AuthOk(node.login1, node.login2, node.expiration % 0x1_0000_0000, node.group, node.changing);
        }
      }
      r := AuthFailed;
    }

    // char_parse_char_connect: tells whether an entry lets the player in. It does if the last
    // thing that happened to the account was that it was filed, with these logins, and the
    // server's restrictions allow it.
    method Connect(account: int, login1: int, login2: int, running: bool, limits: Limits) returns (ok: bool)
      requires Valid()
      modifies this
      ensures Valid() && past == old(past) + [HandOff.Connect(account, login1, login2, running, limits)]
      ensures var s := LastTouch(RunAll(map[], old(past)).1, account);
        ok <==> running && s < |old(past)| && LetsIn(old(past)[s], account, login1, login2, limits)
      ensures authDb == if ok then old(authDb) - {account} else old(authDb)
    {
      ghost var e := HandOff.Connect(account, login1, login2, running, limits);
      RunSnoc(map[], past, e);
      ConnectsIff(past, account, login1, login2, running, limits);
      past := past + [e];
      ok := false;
      if running && account in authDb {
        var node := authDb[account];
        if node.account == account && node.login1 == login1 && node.login2 == login2 {
          if limits.Maintenance? && node.group < limits.minGroup {
            return;
          }
          if limits.Paying? && node.expiration < limits.now {
            return;
          }
          authDb := authDb - {account};
          ok := true;
        }
      }
    }

    // char_parse_fromlogin_kick
    method Kick(account: int)
      requires Valid()
      modifies this
      ensures Valid() && past == old(past) + [HandOff.Kick(account)] && authDb == old(authDb) - {account}
    {
      RunSnoc(map[], past, HandOff.Kick(account));
      past := past + [HandOff.Kick(account)];
      authDb := authDb - {account};
    }

    // char_parse_fromlogin_changesex_reply
    method ChangeSex(account: int, sex: int)
      requires Valid()
      modifies this
      ensures Valid() && past == old(past) + [HandOff.ChangeSex(account, sex)]
    {
      RunSnoc(map[], past, HandOff.ChangeSex(account, sex));
      past := past + [HandOff.ChangeSex(account, sex)];
      if account in authDb {
        authDb := authDb[account := authDb[account].(sex := sex)];
      }
    }
  }
}
