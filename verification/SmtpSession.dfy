/** The SMTP session (internal/smtp/server.go): AUTH, MAIL, RCPT, DATA and Reset
    on one connection. Whether a user resolves, a password validates or the IP is
    locked out is an input of the command. */
module SmtpSession {
  import opened Common
  import Lockout
  import RedisLockout
  import RedisFaults
  import SmtpSecurity

  /** users: a UserResolver is configured; maxFailures is
      MaxAuthFailuresPerSession after defaults. `extract` is extractAddr, and `fold`
      maps all letters that differ in case only to one. */
  datatype Config = Config(users: bool, validator: bool, relayEnabled: bool, maxFailures: int,
                           extract: string -> string, fold: char -> char)

  datatype Session = Session(authedUser: string, from: string, to: seq<string>, authFailures: nat)

  datatype Command =
    | Auth(plain: bool, identity: string, username: string, lockedOut: bool, resolves: bool, validates: bool)
    | Mail(sender: string)
    | Rcpt(rcpt: string, resolves: bool)
    | Data(readable: bool, headerFrom: string)
    | Reset

  datatype Reply = Ok | UnknownMechanism | AuthRequired | TooManyFailures | SenderMismatch | NoSuchUser | BadMessage

  /** What the mailbox receives: the client identity, the recipients and the
      internal envelope header. */
  datatype Message = Message(client: string, recipients: seq<string>, envelopeFrom: string)

  // ---- Case-insensitive comparison ----

  predicate EqualFold(cfg: Config, a: string, b: string) {
    |a| == |b| && forall i :: 0 <= i < |a| ==> cfg.fold(a[i]) == cfg.fold(b[i])
  }

  // ---- The handlers ----

  function Email(c: Command): string
    requires c.Auth?
  {
    if c.identity != "" then c.identity else c.username
  }

  predicate Passes(cfg: Config, c: Command)
    requires c.Auth?
  {
    c.plain && cfg.users && !c.lockedOut && c.resolves && (cfg.validator ==> c.validates)
  }

  /** An attempt that reached the credential check and failed it. */
  predicate Fails(cfg: Config, c: Command)
    requires c.Auth?
  {
    c.plain && cfg.users && !c.lockedOut && !(c.resolves && (cfg.validator ==> c.validates))
  }

  function AuthReply(cfg: Config, s: Session, c: Command): Reply
    requires c.Auth?
  {
    if !c.plain then UnknownMechanism
    else if !cfg.users then AuthRequired
    else if c.lockedOut then TooManyFailures
    else if Passes(cfg, c) then Ok
    else if cfg.maxFailures > 0 && s.authFailures + 1 >= cfg.maxFailures then TooManyFailures
    else AuthRequired
  }

  function MailReply(cfg: Config, s: Session, sender: string): Reply {
    if cfg.users && s.authedUser == "" then AuthRequired
    else if s.authedUser != "" && !EqualFold(cfg, cfg.extract(sender), s.authedUser) then SenderMismatch
    else Ok
  }

  function ReplyTo(cfg: Config, s: Session, c: Command): Reply {
    match c
    case Auth(_, _, _, _, _, _) => AuthReply(cfg, s, c)
    case Mail(sender) => MailReply(cfg, s, sender)
    case Rcpt(_, resolves) => if cfg.users && !cfg.relayEnabled && !resolves then NoSuchUser else Ok
    case Data(readable, _) => if readable then Ok else BadMessage
    case Reset => Ok
  }

  function Next(cfg: Config, s: Session, c: Command): Session {
    match c
    case Auth(_, _, _, _, _, _) =>
      if Passes(cfg, c) then s.(authedUser := Email(c))
      else if Fails(cfg, c) then s.(authFailures := s.authFailures + 1)
      else s
    case Mail(sender) => if MailReply(cfg, s, sender).Ok? then s.(from := sender) else s
    case Rcpt(rcpt, _) => if ReplyTo(cfg, s, c).Ok? then s.(to := s.to + [rcpt]) else s
    case Data(_, _) => s
    case Reset => s.(from := "", to := [])
  }

  function Sender(cfg: Config, s: Session, headerFrom: string): string {
    if s.authedUser != "" then s.authedUser
    else if s.from != "" then s.from
    else cfg.extract(headerFrom)
  }

  /** The message a DATA command hands to the mailbox. */
  function Handed(cfg: Config, s: Session, c: Command): Option<Message> {
    if c.Data? && c.readable then Some(Message(Sender(cfg, s, c.headerFrom), s.to, s.from)) else None
  }

  // ---- The session object ----

  class Connection {
    const cfg: Config
    const remoteAddr: string
    const hook: SmtpSecurity.Plugin?
    var authedUser: string
    var from: string
    var to: seq<string>
    var authFailures: nat

    ghost function View(): Session
      reads this
    {
      Session(authedUser, from, to, authFailures)
    }

    constructor (c: Config, addr: string, h: SmtpSecurity.Plugin?)
      ensures cfg == c && remoteAddr == addr && hook == h && View() == Session("", "", [], 0)
    {
      cfg, remoteAddr, hook := c, addr, h;
      authedUser, from, to, authFailures := "", "", [], 0;
    }

    /** The plugin's lock on this connection's address. */
    ghost predicate Locked(now: int, readFails: bool)
      reads this, hook, if hook == null then {} else {hook.lockoutStore}
    {
      hook != null && SmtpSecurity.LocksHold(hook.cfg, hook.View(), hook.hostOnly(remoteAddr), now, readFails)
    }

    /** The AUTH command up to the SASL exchange: the lock is asked now. None lets
        the exchange start; otherwise this is the reply to the command, whatever
        credentials it was going to carry, and the session is as it was. */
    method StartAuth(plain: bool, now: int, readFails: bool) returns (r: Option<Reply>)
      requires hook != null ==> hook.Valid()
      ensures r == Some(UnknownMechanism) <==> !plain
      ensures r == Some(AuthRequired) <==> plain && !cfg.users
      ensures r in {None, Some(UnknownMechanism), Some(AuthRequired), Some(TooManyFailures)}
      ensures plain && cfg.users && hook == null ==> r == None
      ensures plain && cfg.users && hook != null && hook.lockoutStore == null
              && Lockout.Timed(hook.history) && Lockout.After(hook.history, now) ==>
                (r == Some(TooManyFailures)
                 <==> Lockout.LockedBy(hook.cfg, Lockout.Epoch(hook.cfg, hook.history, hook.hostOnly(remoteAddr)), now))
      ensures plain && cfg.users && hook != null && hook.lockoutStore != null ==>
                var end := RedisFaults.LockOf(hook.lockoutStore.calls, hook.hostOnly(remoteAddr));
                (r == Some(TooManyFailures) <==> hook.cfg.max != 0 && !readFails && end.Some? && now < end.value)
      ensures forall c: Command :: c.Auth? && c.plain == plain && c.lockedOut == Locked(now, readFails) ==>
                if r.Some? then r.value == AuthReply(cfg, View(), c) && Next(cfg, View(), c) == View()
                else Passes(cfg, c) || Fails(cfg, c)
    {
      if !plain {
        return Some(UnknownMechanism);
      }
      if !cfg.users {
        return Some(AuthRequired);
      }
      if hook != null {
        var locked := hook.IsLockedOut(remoteAddr, now, readFails);
        if locked {
          return Some(TooManyFailures);
        }
      }
      r := None;
    }

    /** The SASL callback, later: the lock is not asked again, and a failed check
        is reported to the lockout. */
    method CheckCredentials(identity: string, username: string, resolves: bool, validates: bool, now: int,
                            fault: RedisLockout.Fault) returns (r: Reply)
      requires cfg.users && (hook != null ==> hook.Valid())
      modifies this, hook, if hook == null then {} else {hook.lockoutStore}
      ensures hook != null ==> hook.Valid()
      ensures var pass := resolves && (cfg.validator ==> validates);
        && authedUser == (if !pass then old(authedUser) else if identity != "" then identity else username)
        && authFailures == old(authFailures) + (if pass then 0 else 1)
        && from == old(from) && to == old(to)
        && r == (if pass then Ok
                 else if 0 < cfg.maxFailures <= authFailures then TooManyFailures
                 else AuthRequired)
        && (hook != null && hook.lockoutStore == null ==>
              hook.history == old(hook.history)
                              + (if pass then [] else [Lockout.Failure(hook.hostOnly(remoteAddr), now)]))
        && (hook != null && hook.lockoutStore != null ==>
              hook.lockoutStore.calls == old(hook.lockoutStore.calls)
                + (if pass || hook.cfg.max == 0 then [] else [hook.CallFor(hook.hostOnly(remoteAddr), now, fault)]))
      ensures var c := Auth(true, identity, username, false, resolves, validates);
        && r == AuthReply(cfg, old(View()), c) && View() == Next(cfg, old(View()), c)
        && (hook != null ==>
              hook.View() == if Fails(cfg, c)
                             then SmtpSecurity.LocksRecorded(hook.cfg, old(hook.View()), hook.hostOnly(remoteAddr),
                                                             now, fault).0
                             else old(hook.View()))
    {
      var email := username;
      if identity != "" {
        email := identity;
      }
      if !resolves || (cfg.validator && !validates) {
        r := AuthFailed(now, fault);
        return;
      }
      authedUser := email;
      r := Ok;
    }

    method AuthFailed(now: int, fault: RedisLockout.Fault) returns (r: Reply)
      requires hook != null ==> hook.Valid()
      modifies this`authFailures, hook, if hook == null then {} else {hook.lockoutStore}
      ensures hook != null ==> hook.Valid()
      ensures hook != null && hook.lockoutStore == null ==>
                hook.history == old(hook.history) + [Lockout.Failure(hook.hostOnly(remoteAddr), now)]
      ensures hook != null && hook.lockoutStore != null ==>
                hook.lockoutStore.calls == old(hook.lockoutStore.calls)
                  + (if hook.cfg.max == 0 then [] else [hook.CallFor(hook.hostOnly(remoteAddr), now, fault)])
      ensures authFailures == old(authFailures) + 1
      ensures r == if cfg.maxFailures > 0 && authFailures >= cfg.maxFailures then TooManyFailures else AuthRequired
      ensures hook != null ==>
                hook.View() == SmtpSecurity.LocksRecorded(hook.cfg, old(hook.View()), hook.hostOnly(remoteAddr),
                                                          now, fault).0
    {
      authFailures := authFailures + 1;
      if hook != null {
        var _ := hook.RecordAuthFailure(remoteAddr, now, fault);
      }
      if cfg.maxFailures > 0 && authFailures >= cfg.maxFailures {
        return TooManyFailures;
      }
      r := AuthRequired;
    }

    /** Without an identity MAIL is refused when users are configured; with one, the
        sender's address must be that identity, character by character, up to case. */
    method MailFrom(sender: string) returns (r: Reply)
      modifies this`from
      ensures r == AuthRequired <==> authedUser == "" && cfg.users
      ensures authedUser == "" && !cfg.users ==> r == Ok
      ensures authedUser != "" ==>
                var a := cfg.extract(sender);
                && (r == Ok <==> |a| == |authedUser|
                                 && forall i :: 0 <= i < |a| ==> cfg.fold(a[i]) == cfg.fold(authedUser[i]))
                && (r == Ok || r == SenderMismatch)
      ensures from == if r == Ok then sender else old(from)
      ensures r == ReplyTo(cfg, old(View()), Mail(sender)) && View() == Next(cfg, old(View()), Mail(sender))
    {
      if cfg.users && authedUser == "" {
        return AuthRequired;
      }
      if authedUser != "" {
        var addr := cfg.extract(sender);
        if !EqualFold(cfg, addr, authedUser) {
          return SenderMismatch;
        }
      }
      from := sender;
      r := Ok;
    }

    method RcptTo(rcpt: string, resolves: bool) returns (r: Reply)
      modifies this`to
      ensures r == if cfg.users && !cfg.relayEnabled && !resolves then NoSuchUser else Ok
      ensures to == if r == Ok then old(to) + [rcpt] else old(to)
      ensures r == ReplyTo(cfg, old(View()), Rcpt(rcpt, resolves))
      ensures View() == Next(cfg, old(View()), Rcpt(rcpt, resolves))
    {
      if cfg.users && !cfg.relayEnabled {
        if !resolves {
          return NoSuchUser;
        }
      }
      to := to + [rcpt];
      r := Ok;
    }

    method ReadData(readable: bool, headerFrom: string) returns (m: Option<Message>)
      ensures m.Some? <==> readable
      ensures m.Some? ==> m.value.recipients == to && m.value.envelopeFrom == from
                          && m.value.client == (if authedUser != "" then authedUser
                                                else if from != "" then from
                                                else cfg.extract(headerFrom))
      ensures m == Handed(cfg, View(), Data(readable, headerFrom))
    {
      if !readable {
        return None;
      }
      var sender := authedUser;
      if sender == "" {
        sender := from;
      }
      if sender == "" {
        sender := cfg.extract(headerFrom);
      }
      m := Some(Message(sender, to, from));
    }

    method ResetSession()
      modifies this`from, this`to
      ensures from == "" && to == []
      ensures View() == Next(cfg, old(View()), Reset)
    {
      from := "";
      to := [];
    }
  }

  // ---- Command order ----

  /** What the protocol layer tracks: sections 4.1.4 of RFC 5321 and 4 of RFC 4954.
      MAIL opens a transaction, RCPT and DATA need one, DATA ends it with a reset,
      and AUTH is refused inside one and after a success. */
  datatype Order = Order(authed: bool, open: bool, rcpts: nat, ended: bool)

  predicate Allowed(o: Order, c: Command) {
    match c
    case Auth(_, _, _, _, _, _) => !o.authed && !o.open && !o.ended
    case Mail(_) => !o.open && !o.ended
    case Rcpt(_, _) => o.open && !o.ended
    case Data(_, _) => o.open && o.rcpts > 0 && !o.ended
    case Reset => true
  }

  function Track(o: Order, c: Command, r: Reply): Order {
    match c
    case Auth(_, _, _, _, _, _) => o.(authed := o.authed || r.Ok?)
    case Mail(_) => o.(open := r.Ok?)
    case Rcpt(_, _) => if r.Ok? then o.(rcpts := o.rcpts + 1) else o
    case Data(_, _) => o.(ended := true)
    case Reset => o.(open := false, rcpts := 0, ended := false)
  }

  const START: Session := Session("", "", [], 0)
  const START_ORDER: Order := Order(false, false, 0, false)

  function At(cfg: Config, cs: seq<Command>): Session {
    if cs == [] then START else Next(cfg, At(cfg, cs[..|cs| - 1]), cs[|cs| - 1])
  }

  function OrderAt(cfg: Config, cs: seq<Command>): Order {
    if cs == [] then START_ORDER
    else
      var p, c := cs[..|cs| - 1], cs[|cs| - 1];
      Track(OrderAt(cfg, p), c, ReplyTo(cfg, At(cfg, p), c))
  }

  ghost predicate Legal(cfg: Config, cs: seq<Command>) {
    forall i :: 0 <= i < |cs| ==> Allowed(OrderAt(cfg, cs[..i]), cs[i])
  }

  // ---- What a handed message proves ----

  /** The i-th command is an AUTH PLAIN that was not turned away, resolved, validated
      if there is a validator, and named this identity. */
  ghost predicate AuthenticatedAt(cfg: Config, cs: seq<Command>, email: string, i: int) {
    && 0 <= i < |cs| && cs[i].Auth? && cs[i].plain && !cs[i].lockedOut && cs[i].resolves
    && (cfg.validator ==> cs[i].validates)
    && email == (if cs[i].identity != "" then cs[i].identity else cs[i].username)
  }

  ghost predicate Authenticated(cfg: Config, cs: seq<Command>, email: string) {
    exists i :: AuthenticatedAt(cfg, cs, email, i)
  }

  /** Some RCPT since the last Reset resolved this recipient. */
  ghost predicate Resolved(cs: seq<Command>, rcpt: string) {
    exists i :: 0 <= i < |cs| && cs[i].Rcpt? && cs[i].rcpt == rcpt && cs[i].resolves
                && NoResetAfter(cs, i)
  }

  ghost predicate NoResetAfter(cs: seq<Command>, i: int) {
    forall j :: i < j < |cs| ==> 0 <= j && !cs[j].Reset?
  }

  ghost predicate Inv(cfg: Config, cs: seq<Command>) {
    var s, o := At(cfg, cs), OrderAt(cfg, cs);
    && (s.authedUser != "" ==> Authenticated(cfg, cs, s.authedUser))
    && (o.open ==> s.authedUser != "" && EqualFold(cfg, cfg.extract(s.from), s.authedUser))
    && (forall k :: 0 <= k < |s.to| ==> Resolved(cs, s.to[k]))
    && |s.to| == o.rcpts
  }

  lemma AuthenticatedStays(cfg: Config, cs: seq<Command>, c: Command, email: string)
    requires Authenticated(cfg, cs, email)
    ensures Authenticated(cfg, cs + [c], email)
  {
    var i :| AuthenticatedAt(cfg, cs, email, i);
    assert AuthenticatedAt(cfg, cs + [c], email, i);
  }

  lemma ResolvedStays(cs: seq<Command>, c: Command, rcpt: string)
    requires Resolved(cs, rcpt) && !c.Reset?
    ensures Resolved(cs + [c], rcpt)
  {
    var i :| 0 <= i < |cs| && cs[i].Rcpt? && cs[i].rcpt == rcpt && cs[i].resolves && NoResetAfter(cs, i);
    assert (cs + [c])[i] == cs[i] && NoResetAfter(cs + [c], i);
  }

  lemma StepKeepsInv(cfg: Config, cs: seq<Command>, c: Command)
    requires cfg.users && !cfg.relayEnabled && Inv(cfg, cs) && Allowed(OrderAt(cfg, cs), c)
    ensures Inv(cfg, cs + [c])
  {
    var cs' := cs + [c];
    var s, s' := At(cfg, cs), At(cfg, cs');
    assert cs'[..|cs'| - 1] == cs && cs'[|cs|] == c;
    if s'.authedUser != "" {
      if c.Auth? && Passes(cfg, c) {
        assert AuthenticatedAt(cfg, cs', s'.authedUser, |cs|);
      } else {
        AuthenticatedStays(cfg, cs, c, s.authedUser);
      }
    }
    forall k | 0 <= k < |s'.to|
      ensures Resolved(cs', s'.to[k])
    {
      if k < |s.to| {
        ResolvedStays(cs, c, s.to[k]);
      } else {
        assert NoResetAfter(cs', |cs|);
      }
    }
  }

  lemma LegalPrefix(cfg: Config, cs: seq<Command>, c: Command)
    requires Legal(cfg, cs + [c])
    ensures Legal(cfg, cs) && Allowed(OrderAt(cfg, cs), c)
  {
    var all := cs + [c];
    assert forall i :: 0 <= i < |cs| ==> all[i] == cs[i] && all[..i] == cs[..i];
    assert all[|cs|] == c && all[..|cs|] == cs;
    assert Allowed(OrderAt(cfg, all[..|cs|]), all[|cs|]);
  }

  lemma {:induction false} LegalKeepsInv(cfg: Config, cs: seq<Command>)
    requires cfg.users && !cfg.relayEnabled && Legal(cfg, cs)
    ensures Inv(cfg, cs)
  {
    if cs == [] {
    } else {
      var p, c := cs[..|cs| - 1], cs[|cs| - 1];
      assert cs == p + [c];
      LegalPrefix(cfg, p, c);
      LegalKeepsInv(cfg, p);
      StepKeepsInv(cfg, p, c);
    }
  }

  /** Every message handed to the mailbox, in every legal trace with users
      configured and relaying off: its client is an identity that an AUTH of this
      connection resolved (and validated), the envelope sender is that identity
      up to case, and every recipient was resolved since the last Reset. */
  lemma HandedMessagesAreAuthorised(cfg: Config, cs: seq<Command>, c: Command)
    requires cfg.users && !cfg.relayEnabled && Legal(cfg, cs + [c])
    requires Handed(cfg, At(cfg, cs), c).Some?
    ensures var m := Handed(cfg, At(cfg, cs), c).value;
      && m.client != "" && Authenticated(cfg, cs, m.client)
      && |cfg.extract(m.envelopeFrom)| == |m.client|
      && (forall i :: 0 <= i < |m.client| ==>
            cfg.fold(cfg.extract(m.envelopeFrom)[i]) == cfg.fold(m.client[i]))
      && m.recipients != [] && forall k :: 0 <= k < |m.recipients| ==> Resolved(cs, m.recipients[k])
  {
    LegalPrefix(cfg, cs, c);
    LegalKeepsInv(cfg, cs);
  }

  /** The MAIL command of the current transaction. */
  ghost predicate OpenedBy(cs: seq<Command>, sender: string) {
    exists i :: 0 <= i < |cs| && cs[i] == Mail(sender) && NoResetAfter(cs, i)
  }

  /** Without users nobody authenticates, and an open transaction's sender is the
      one its MAIL named. */
  ghost predicate OpenInv(cfg: Config, cs: seq<Command>) {
    && At(cfg, cs).authedUser == ""
    && (OrderAt(cfg, cs).open ==> OpenedBy(cs, At(cfg, cs).from))
  }

  lemma OpenedStays(cs: seq<Command>, c: Command, sender: string)
    requires OpenedBy(cs, sender) && !c.Reset?
    ensures OpenedBy(cs + [c], sender)
  {
    var i :| 0 <= i < |cs| && cs[i] == Mail(sender) && NoResetAfter(cs, i);
    assert (cs + [c])[i] == cs[i] && NoResetAfter(cs + [c], i);
  }

  lemma StepKeepsOpenInv(cfg: Config, cs: seq<Command>, c: Command)
    requires !cfg.users && OpenInv(cfg, cs)
    ensures OpenInv(cfg, cs + [c])
  {
    var cs' := cs + [c];
    assert cs'[..|cs'| - 1] == cs && cs'[|cs|] == c;
    if c.Mail? {
      assert NoResetAfter(cs', |cs|);
    } else if OrderAt(cfg, cs').open {
      OpenedStays(cs, c, At(cfg, cs).from);
    }
  }

  lemma {:induction false} TraceKeepsOpenInv(cfg: Config, cs: seq<Command>)
    requires !cfg.users
    ensures OpenInv(cfg, cs)
  {
    if cs == [] {
    } else {
      TraceKeepsOpenInv(cfg, cs[..|cs| - 1]);
      StepKeepsOpenInv(cfg, cs[..|cs| - 1], cs[|cs| - 1]);
      assert cs == cs[..|cs| - 1] + [cs[|cs| - 1]];
    }
  }

  /** A server without users files every message under the sender its own MAIL
      named, and under the From header only when that sender was empty. */
  lemma OpenServerUsesEnvelope(cfg: Config, cs: seq<Command>, c: Command)
    requires !cfg.users && Legal(cfg, cs + [c]) && Handed(cfg, At(cfg, cs), c).Some?
    ensures var m := Handed(cfg, At(cfg, cs), c).value;
      && OpenedBy(cs, m.envelopeFrom)
      && m.client == if m.envelopeFrom != "" then m.envelopeFrom else cfg.extract(c.headerFrom)
  {
    LegalPrefix(cfg, cs, c);
    TraceKeepsOpenInv(cfg, cs);
  }

  /** The order is needed: the handlers themselves would let a second AUTH inside
      a transaction send as b what a opened, for any two identities. */
  lemma ReauthenticationWouldSpoof(cfg: Config, a: string, b: string, rcpt: string)
    requires cfg.users && a != "" && b != "" && EqualFold(cfg, cfg.extract(a), a)
    ensures var cs := [Auth(true, "", a, false, true, true), Mail(a), Rcpt(rcpt, true),
                       Auth(true, "", b, false, true, true)];
      && Legal(cfg, cs[..3]) && !Allowed(OrderAt(cfg, cs[..3]), cs[3])
      && Handed(cfg, At(cfg, cs), Data(true, "")) == Some(Message(b, [rcpt], a))
  {
    var x, m, r, y := Auth(true, "", a, false, true, true), Mail(a), Rcpt(rcpt, true),
                      Auth(true, "", b, false, true, true);
    assert [x, m, r, y][..3] == [x, m, r] && [x, m, r][..2] == [x, m] && [x, m][..1] == [x] && [x][..0] == [];
    assert At(cfg, [x]) == Session(a, "", [], 0);
    assert At(cfg, [x, m]) == Session(a, a, [], 0);
    assert At(cfg, [x, m, r]) == Session(a, a, [rcpt], 0);
    assert OrderAt(cfg, [x]) == Order(true, false, 0, false);
    assert OrderAt(cfg, [x, m]) == Order(true, true, 0, false);
    assert OrderAt(cfg, [x, m, r]).open;
    assert [x, m, r][..1] == [x] && [x, m, r][..0] == [];
  }

  /** The per-connection limit: a failing check is answered with 421 exactly from
      the maxFailures-th failure of the connection on. */
  lemma {:induction false} FailuresAreCounted(cfg: Config, cs: seq<Command>)
    ensures At(cfg, cs).authFailures == |FailedChecks(cfg, cs)|
  {
    if cs == [] {
    } else {
      FailuresAreCounted(cfg, cs[..|cs| - 1]);
    }
  }

  ghost function FailedChecks(cfg: Config, cs: seq<Command>): seq<Command> {
    if cs == [] then []
    else
      var p, c := cs[..|cs| - 1], cs[|cs| - 1];
      FailedChecks(cfg, p) + (if c.Auth? && Fails(cfg, c) then [c] else [])
  }

  lemma LimitReplies(cfg: Config, cs: seq<Command>, c: Command)
    requires c.Auth? && Fails(cfg, c) && cfg.maxFailures > 0
    ensures ReplyTo(cfg, At(cfg, cs), c).TooManyFailures? <==> |FailedChecks(cfg, cs)| + 1 >= cfg.maxFailures
  {
    FailuresAreCounted(cfg, cs);
  }
}
