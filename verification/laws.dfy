/** What the handlers promise about the ledger as a whole: every ledger
    route keeps each card's balance in step with its rows, the store stays
    sound under every request except the two overwrites, and the two quirks
    of the apply routes and the overwrites, stated as what they do. */
module Laws {
  import opened Base
  import opened Db
  import opened Audit
  import opened Identity
  import opened Routes
  import Bulk

  // ---------------------------------------------------------------------
  // Drift: balance minus ledger sum

  /** An apply moves a card's balance and its ledger sum by the same delta,
      so no card's drift changes, and no card appears or disappears. */
  lemma MoveKeepsDrift(s: Store, token: string, delta: int, source: Source,
                                          reason: string, booth: string, at: string)
    ensures Move(s, token, delta, source, reason, booth, at).store.cards.Keys == s.cards.Keys
    ensures forall t :: t in s.cards ==>
      Drift(Move(s, token, delta, source, reason, booth, at).store, t) == Drift(s, t)
  {
  }

  /** Set-balance logs exactly the difference it writes, so no card's drift
      changes either. */
  lemma SetBalanceKeepsDrift(s: Store, token: string, value: int, at: string)
    ensures AdminSetBalance(s, Some(token), Some(value), at).store.cards.Keys == s.cards.Keys
    ensures forall t :: t in s.cards ==>
      Drift(AdminSetBalance(s, Some(token), Some(value), at).store, t) == Drift(s, t)
  {
  }

  /** Deleting a card with its rows leaves every other card's drift alone. */
  lemma {:induction false} DeleteKeepsDrift(s: Store, token: Option<string>)
    ensures forall t :: t in DeleteRoute(s, token).store.cards ==>
      t in s.cards && Drift(DeleteRoute(s, token).store, t) == Drift(s, t)
  {
    var post := DeleteRoute(s, token).store;
    if Given(token) {
      assert post.txs == Without(s.txs, token.value);
      forall t | t in post.cards ensures t in s.cards && Drift(post, t) == Drift(s, t) {
        SumWithout(s.txs, token.value, t);
      }
    }
  }

  /** An overwrite sets the balance without telling the ledger: the card's
      drift becomes the written balance minus its old ledger sum. */
  lemma UpsertDrift(s: Store, token: Option<string>, name: Option<string>, balance: Option<string>)
    requires Given(token) && BodyInt(balance).Some?
    ensures Text.Trim(token.value) in Upsert(s, token, name, balance).store.cards
    ensures Drift(Upsert(s, token, name, balance).store, Text.Trim(token.value))
         == BodyInt(balance).value - Sum(s.txs, Text.Trim(token.value))
  {
  }

  /** So an overwrite that does not happen to write the ledger sum leaves
      the store inconsistent. */
  lemma UpsertBreaksConsistency(s: Store, token: Option<string>, name: Option<string>, balance: Option<string>)
    requires Given(token) && BodyInt(balance).Some?
    requires BodyInt(balance).value != Sum(s.txs, Text.Trim(token.value))
    ensures !Consistent(Upsert(s, token, name, balance).store)
  {
  }

  // ---------------------------------------------------------------------
  // Soundness, route by route

  /** Cards whose drift is unchanged and still zero. */
  lemma ConsistentByDrift(s: Store, post: Store)
    requires Consistent(s)
    requires forall t :: t in post.cards ==> t in s.cards && Drift(post, t) == Drift(s, t)
    ensures Consistent(post)
  {
  }

  /** Appending a row with the next id keeps the ids ascending. */
  lemma AppendOrdered(s: Store, post: Store, x: Tx)
    requires Ordered(s)
    requires post.txs == s.txs + [x] && x.id == s.nextId && post.nextId == s.nextId + 1
    ensures Ordered(post)
  {
  }

  /** An apply to a card that exists keeps the store sound. */
  lemma MoveKeepsSound(s: Store, token: string, delta: int, source: Source,
                                          reason: string, booth: string, at: string)
    requires Sound(s) && token in s.cards
    ensures Sound(Move(s, token, delta, source, reason, booth, at).store)
  {
  }

  lemma BoothApplyKeepsSound(s: Store, cookie: string, token: Option<string>, delta: Option<int>,
                             reason: Option<string>, at: string)
    requires Sound(s) && (Given(token) ==> token.value in s.cards)
    ensures Sound(BoothApply(s, cookie, token, delta, reason, at).store)
  {
    if Given(token) && delta.Some? && delta.value < 0 && GetBooth(cookie) != "" {
      MoveKeepsSound(s, token.value, delta.value, FromBooth, OrEmpty(reason), GetBooth(cookie), at);
    }
  }

  lemma AdminApplyKeepsSound(s: Store, token: Option<string>, delta: Option<int>,
                             reason: Option<string>, at: string)
    requires Sound(s) && (Given(token) ==> token.value in s.cards)
    ensures Sound(AdminApply(s, token, delta, reason, at).store)
  {
  }

  /** A set-balance on a card that exists keeps the store sound. */
  lemma SetBalanceKeepsSound(s: Store, token: Option<string>, value: Option<int>, at: string)
    requires Sound(s)
    requires Given(token) ==> token.value in s.cards
    ensures Sound(AdminSetBalance(s, token, value, at).store)
  {
  }

  /** Deleting a card with its rows keeps the store sound. */
  lemma {:induction false} DeleteKeepsSound(s: Store, token: Option<string>)
    requires Sound(s)
    ensures Sound(DeleteRoute(s, token).store)
  {
    if Given(token) {
      var post := DeleteRoute(s, token).store;
      DeleteKeepsDrift(s, token);
      ConsistentByDrift(s, post);
      WithoutAscending(s.txs, token.value);
      forall i | 0 <= i < |post.txs| ensures post.txs[i].id < post.nextId && post.txs[i].token in post.cards {
        assert post.txs[i] in s.txs;
      }
    }
  }

  /** Opening a card page creates a zero-balance card only for a token no
      row carries yet, so the store stays sound. */
  lemma {:induction false} OpenCardKeepsSound(s: Store, token: string)
    requires Sound(s)
    ensures Sound(OpenCard(s, token).store)
  {
    if token !in s.cards {
      SumOfUnused(s.txs, token);
    }
  }

  /** Renaming a card leaves every balance and every row where it was. */
  lemma LabelKeepsSound(s: Store, token: Option<string>, name: Option<string>)
    requires Sound(s)
    ensures Sound(LabelRoute(s, token, name).store)
  {
  }

  /** The admin-gated requests that name a card through a ledger route name
      one that exists. */
  predicate KnownTarget(s: Store, req: Request) {
    match req
    case PostBoothApply(t, _, _) => Given(t) ==> t.value in s.cards
    case PostAdminApply(t, _, _) => Given(t) ==> t.value in s.cards
    case PostSetBalance(t, _) => Given(t) ==> t.value in s.cards
    case _ => true
  }

  /** Every request except the two overwrites keeps the store sound, as long
      as the ledger routes name existing cards: balances equal ledger sums,
      every row has its card, ids ascend. */
  lemma {:induction false} HandleKeepsSound(s: Store, cookie: string, adminPassword: string, req: Request, at: string)
    requires Sound(s) && !Bypass(req) && KnownTarget(s, req)
    ensures Sound(Handle(s, cookie, adminPassword, req, at).store)
  {
    if !AdminOnly(req) || IsAdmin(cookie) {
      if LedgerRoute(req) {
        LedgerKeepsSound(s, cookie, adminPassword, req, at);
      } else {
        OthersKeepSound(s, cookie, adminPassword, req, at);
      }
    }
  }

  lemma LedgerKeepsSound(s: Store, cookie: string, adminPassword: string, req: Request, at: string)
    requires Sound(s) && KnownTarget(s, req) && LedgerRoute(req)
    ensures Sound(Dispatch(s, cookie, adminPassword, req, at).store)
  {
    match req
    case PostBoothApply(t, d, r) => BoothApplyKeepsSound(s, cookie, t, d, r, at);
    case PostAdminApply(t, d, r) => AdminApplyKeepsSound(s, t, d, r, at);
    case PostSetBalance(t, v) => SetBalanceKeepsSound(s, t, v, at);
  }

  lemma OthersKeepSound(s: Store, cookie: string, adminPassword: string, req: Request, at: string)
    requires Sound(s) && !Bypass(req) && !LedgerRoute(req)
    ensures Sound(Dispatch(s, cookie, adminPassword, req, at).store)
  {
    if req.CardPage? || req.AdminCardPage? || req.PostLabel? || req.PostCardDelete? {
      CardRoutesKeepSound(s, cookie, adminPassword, req, at);
    } else {
      SameLedgerSound(s, Dispatch(s, cookie, adminPassword, req, at).store);
    }
  }

  lemma CardRoutesKeepSound(s: Store, cookie: string, adminPassword: string, req: Request, at: string)
    requires Sound(s)
    requires req.CardPage? || req.AdminCardPage? || req.PostLabel? || req.PostCardDelete?
    ensures Sound(Dispatch(s, cookie, adminPassword, req, at).store)
  {
    if req.CardPage? || req.AdminCardPage? {
      OpenCardKeepsSound(s, req.path);
    } else if req.PostLabel? {
      LabelKeepsSound(s, req.token, req.name);
    } else {
      DeleteKeepsSound(s, req.token);
    }
  }

  /** A step that touches neither cards nor rows. */
  lemma SameLedgerSound(s: Store, post: Store)
    requires Sound(s)
    requires post.cards == s.cards && post.txs == s.txs && post.nextId == s.nextId
    ensures Sound(post)
  {
  }

  /** The empty database is sound and well sourced. */
  lemma EmptyIsSound()
    ensures Sound(Empty) && WellSourced(Empty)
  {
  }

  // ---------------------------------------------------------------------
  // Laws that hold whatever state the ledger is in

  /** Card delete keeps the ids ascending and below the next id. */
  lemma {:induction false} DeleteKeepsOrdered(s: Store, token: Option<string>)
    requires Ordered(s)
    ensures Ordered(DeleteRoute(s, token).store)
  {
    if Given(token) {
      var post := DeleteRoute(s, token).store;
      WithoutAscending(s.txs, token.value);
      forall i | 0 <= i < |post.txs| ensures post.txs[i].id < post.nextId {
        assert post.txs[i] in s.txs;
      }
    }
  }

  /** Every request, bulk and upsert and applies to unknown tokens
      included, keeps the ledger ids ascending and below the next id. */
  lemma {:induction false} HandleKeepsOrdered(s: Store, cookie: string, adminPassword: string, req: Request, at: string)
    requires Ordered(s)
    ensures Ordered(Handle(s, cookie, adminPassword, req, at).store)
  {
    var post := Handle(s, cookie, adminPassword, req, at).store;
    if !AdminOnly(req) || IsAdmin(cookie) {
      if LedgerRoute(req) {
        if |post.txs| > |s.txs| {
          assert post.txs == s.txs + [post.txs[|s.txs|]];
          AppendOrdered(s, post, post.txs[|s.txs|]);
        } else {
          assert post.txs == s.txs;
        }
      } else if req.PostCardDelete? {
        DeleteKeepsOrdered(s, req.token);
      }
    }
  }

  /** Every request except the two overwrites leaves the drift (balance
      minus ledger sum) of every card that survives it where it was, in any
      state: a card whose balance matched its rows still does, and one that
      did not is off by the same amount. */
  lemma {:induction false} HandleKeepsDrift(s: Store, cookie: string, adminPassword: string, req: Request, at: string)
    requires !Bypass(req)
    ensures var post := Handle(s, cookie, adminPassword, req, at).store;
      forall t :: t in s.cards && t in post.cards ==> Drift(post, t) == Drift(s, t)
  {
    if !AdminOnly(req) || IsAdmin(cookie) {
      if req.PostBoothApply? {
        var tk, d, r := req.token, req.delta, req.reason;
        if Given(tk) && d.Some? && d.value < 0 && GetBooth(cookie) != "" {
          MoveKeepsDrift(s, tk.value, d.value, FromBooth, OrEmpty(r), GetBooth(cookie), at);
        }
      } else if req.PostAdminApply? {
        var tk, d, r := req.token, req.delta, req.reason;
        if Given(tk) && d.Some? {
          MoveKeepsDrift(s, tk.value, d.value, FromAdmin, OrEmpty(r), "", at);
        }
      } else if req.PostSetBalance? {
        if Given(req.token) && req.value.Some? {
          SetBalanceKeepsDrift(s, req.token.value, req.value.value, at);
        }
      } else if req.PostCardDelete? {
        DeleteKeepsDrift(s, req.token);
      }
    }
  }

  /** An upsert moves the drift of the one card it names and no other. */
  lemma UpsertKeepsOtherDrift(s: Store, token: Option<string>, name: Option<string>, balance: Option<string>)
    ensures var post := Upsert(s, token, name, balance).store;
      forall t :: t in s.cards && (!Given(token) || BodyInt(balance).None? || t != Text.Trim(token.value)) ==>
        t in post.cards && Drift(post, t) == Drift(s, t)
  {
  }

  /** The bulk load leaves the drift of every card no accepted line names
      where it was; a named card's drift becomes its last line's balance
      minus its ledger sum. */
  lemma {:induction false} BulkDrift(s: Store, bulk: Option<string>)
    ensures var es := Bulk.Entries(Bulk.Lines(OrEmpty(bulk)));
      var post := BulkRoute(s, bulk).store;
      forall t :: t in s.cards && Bulk.LastFor(es, t).None? ==>
        t in post.cards && Drift(post, t) == Drift(s, t)
    ensures var es := Bulk.Entries(Bulk.Lines(OrEmpty(bulk)));
      var post := BulkRoute(s, bulk).store;
      forall t :: Bulk.LastFor(es, t).Some? ==>
        t in post.cards && Drift(post, t) == Bulk.LastFor(es, t).value.balance - Sum(s.txs, t)
  {
    var es := Bulk.Entries(Bulk.Lines(OrEmpty(bulk)));
    forall t {
      Bulk.LastEntryWins(s, es, t);
    }
  }

  // ---------------------------------------------------------------------
  // The apply routes on a token without a card

  /** An apply that passes every gate on a token without a card still
      appends its row, changes no card and answers with a server error; the
      row now points at no card. */
  lemma {:induction false} UnknownTokenDangles(s: Store, cookie: string, token: string, delta: int,
                                               reason: Option<string>, at: string)
    requires token != "" && delta < 0 && GetBooth(cookie) != "" && token !in s.cards
    ensures var o := BoothApply(s, cookie, Some(token), Some(delta), reason, at);
      && o.reply == ServerError
      && |o.store.txs| == |s.txs| + 1
      && o.store.cards == s.cards
      && !Anchored(o.store)
  {
    var o := BoothApply(s, cookie, Some(token), Some(delta), reason, at);
    assert o.store.txs[|s.txs|].token == token;
  }

  /** Once that card is opened later, it starts at 0 while its ledger sum
      is the deduction already logged: the store is no longer consistent. */
  lemma {:induction false} DanglingRowSurfaces(s: Store, cookie: string, token: string, delta: int,
                                               reason: Option<string>, at: string)
    requires Sound(s)
    requires token != "" && delta < 0 && GetBooth(cookie) != "" && token !in s.cards
    ensures var o := BoothApply(s, cookie, Some(token), Some(delta), reason, at);
      !Consistent(OpenCard(o.store, token).store)
  {
    var o := BoothApply(s, cookie, Some(token), Some(delta), reason, at);
    var x := Tx(s.nextId, token, delta, FromBooth, OrEmpty(reason), GetBooth(cookie), at);
    SumOfUnused(s.txs, token);
    SumAppend(s.txs, x, token);
    var post := OpenCard(o.store, token).store;
    assert post.cards[token].balance == 0 && Sum(post.txs, token) == delta;
  }

  // ---------------------------------------------------------------------
  // Shape of the ledger rows

  /** Booth rows stay deductions stamped with the cookie's booth, admin rows
      stay booth-less, whatever request comes, overwrites included. */
  lemma {:induction false} HandleKeepsSourced(s: Store, cookie: string, adminPassword: string, req: Request, at: string)
    requires WellSourced(s)
    ensures WellSourced(Handle(s, cookie, adminPassword, req, at).store)
  {
    if !AdminOnly(req) || IsAdmin(cookie) {
      if LedgerRoute(req) {
        LedgerSourced(s, cookie, adminPassword, req, at);
      } else if req.PostCardDelete? {
        DeleteSourced(s, req.token);
      }
    }
  }

  lemma LedgerSourced(s: Store, cookie: string, adminPassword: string, req: Request, at: string)
    requires WellSourced(s) && LedgerRoute(req)
    ensures WellSourced(Dispatch(s, cookie, adminPassword, req, at).store)
  {
    match req
    case PostBoothApply(t, d, r) => BoothApplySourced(s, cookie, t, d, r, at);
    case PostAdminApply(t, d, r) => AdminApplySourced(s, t, d, r, at);
    case PostSetBalance(t, v) => SetBalanceSourced(s, t, v, at);
  }

  lemma BoothApplySourced(s: Store, cookie: string, token: Option<string>, delta: Option<int>,
                          reason: Option<string>, at: string)
    requires WellSourced(s)
    ensures WellSourced(BoothApply(s, cookie, token, delta, reason, at).store)
  {
  }

  lemma AdminApplySourced(s: Store, token: Option<string>, delta: Option<int>,
                          reason: Option<string>, at: string)
    requires WellSourced(s)
    ensures WellSourced(AdminApply(s, token, delta, reason, at).store)
  {
  }

  lemma SetBalanceSourced(s: Store, token: Option<string>, value: Option<int>, at: string)
    requires WellSourced(s)
    ensures WellSourced(AdminSetBalance(s, token, value, at).store)
  {
  }

  lemma DeleteSourced(s: Store, token: Option<string>)
    requires WellSourced(s)
    ensures WellSourced(DeleteRoute(s, token).store)
  {
  }

  // ---------------------------------------------------------------------
  // Card delete and card pages

  /** Deleting a card leaves no card and no history for its token. */
  lemma DeleteCascades(s: Store, token: Option<string>)
    requires Given(token)
    ensures token.value !in DeleteRoute(s, token).store.cards
    ensures TxsFor(DeleteRoute(s, token).store, token.value) == []
  {
    var post := DeleteRoute(s, token).store;
    forall i | 0 <= i < |post.txs| ensures post.txs[i].token != token.value {
      assert post.txs[i] in post.txs;
    }
    RowsOfNone(post.txs, token.value);
  }

  lemma {:induction false} RowsOfNone(txs: seq<Tx>, token: string)
    requires forall i :: 0 <= i < |txs| ==> txs[i].token != token
    ensures RowsOf(txs, token) == []
    decreases |txs|
  {
    if |txs| > 0 {
      RowsOfNone(txs[..|txs| - 1], token);
    }
  }

  /** Opening a card page twice is opening it once, and opening a known
      card changes nothing. */
  lemma OpenCardIdempotent(s: Store, token: string)
    ensures OpenCard(OpenCard(s, token).store, token) == OpenCard(s, token)
    ensures token in s.cards ==> OpenCard(s, token).store == s
  {
  }

  // ---------------------------------------------------------------------
  // Booth accounts and booth sessions

  /** A booth just created logs in with the password it was created with,
      under its trimmed username. */
  lemma CreatedBoothLogsIn(s: Store, username: Option<string>, name: Option<string>, password: Option<string>)
    requires Given(username) && Given(name) && Given(password)
    requires Text.Trim(username.value) !in s.booths
    ensures var u := Text.Trim(username.value);
      BoothLogin(BoothCreate(s, username, name, password).store, u, password) == Some(BoothCookie(u))
  {
  }

  /** An update with an empty password keeps the old password working; a
      non-empty one replaces it. */
  lemma UpdatedBoothLogsIn(s: Store, username: Option<string>, name: Option<string>,
                           password: Option<string>, stored: string)
    requires Given(username) && Text.Trim(username.value) in s.booths
    requires stored == s.booths[Text.Trim(username.value)].password
    ensures var u := Text.Trim(username.value);
      var post := BoothUpdate(s, username, name, password).store;
      var given := Text.Trim(OrEmpty(password));
      && (given == "" ==> BoothLogin(post, u, Some(stored)).Some?)
      && (given != "" ==> BoothLogin(post, u, Some(given)).Some?
                          && (stored != given ==> BoothLogin(post, u, Some(stored)).None?))
  {
  }

  /** A deleted booth can no longer log in. */
  lemma DeletedBoothLocked(s: Store, username: Option<string>, password: Option<string>)
    requires Given(username)
    ensures BoothLogin(BoothDelete(s, username).store, Text.Trim(username.value), password).None?
  {
  }

  /** A booth session stamps its rows with the booth's own username: the
      cookie from a successful booth login, sent back with a deduction,
      appends exactly one booth row carrying that username. A booth whose
      username trimmed to "" logs in, but its cookie reads back as no booth,
      so its deductions are refused. */
  lemma {:induction false} BoothSessionStampsRows(s: Store, username: string, password: Option<string>,
                                                  token: string, delta: int, reason: Option<string>, at: string)
    requires BoothLogin(s, username, password).Some?
    requires ';' !in username && '=' !in username && Text.Tight(username)
    requires token != "" && delta < 0
    ensures var cookie := BoothLogin(s, username, password).value;
      username != "" ==>
        BoothApply(s, cookie, Some(token), Some(delta), reason, at).store.txs
          == s.txs + [Tx(s.nextId, token, delta, FromBooth, OrEmpty(reason), username, at)]
    ensures var cookie := BoothLogin(s, username, password).value;
      username == "" ==>
        BoothApply(s, cookie, Some(token), Some(delta), reason, at) == Outcome(s, BoothLoginRequired)
  {
    BoothCookieRoundTrip(username);
  }
}
