/** IRCv3 capability negotiation ("The CAP REQ subcommand", "Multiline
    replies to CAP LS and CAP LIST" of IRCv3 Capability Negotiation). */
module Capabilities {
  import opened Text
  import opened Names
  import opened Lists
  import opened Sizes

  datatype Cap =
    | Sasl | MessageTags | ServerTime | Batch | EchoMessage | LabeledResponse
    | AccountNotify | ExtendedJoin | AccountTag | Setname | Metadata | Chathistory
    | Other(name: string)

  /** Advertised capabilities kept per connection, and the longest value. */
  const MAX_OFFERED := 256
  const MAX_VALUE_BYTES := 512

  datatype Options = Options(messageTags: bool, serverTime: bool, batch: bool, metadata: bool,
    chathistory: bool, confirmedSending: bool, accounts: bool)

  datatype Phase = Inactive | Listing | Requesting | Ended

  datatype Command = CapLs | CapEnd | CapReq(cap: Cap) | CapDisable(cap: Cap) | Authenticate(text: string)

  datatype AckToken = Grant(cap: Cap) | Disable(cap: Cap)
  datatype Offer = Offer(cap: Cap, value: Option<string>)

  /** What the handshake makes of a line that is not a CAP reply. */
  datatype SaslReply = Refused(error: string) | Proceeds(complete: bool, send: seq<string>)

  /** The SASL exchange, of which only this much is modelled. */
  datatype Handshake = Handshake(mechanism: string, usable: bool, complete: bool)

  datatype Line =
    | Ls(continued: bool, offers: seq<Offer>)
    | Ack(continued: bool, tokens: seq<AckToken>)
    | Nak(caps: seq<Cap>)
    | New(offers: seq<Offer>)
    | Del(caps: seq<Cap>)
    | OtherSubcommand
    | NotCap(reply: SaslReply)

  /** What is enabled and pending, and what was asked for on the way. */
  datatype Acked = Acked(enabled: set<Cap>, pending: set<Cap>, asked: set<Cap>)

  datatype Outcome = Ok(send: seq<Command>) | Err(error: string)

  /** Extensions whose replies only make sense inside batches. */
  predicate NeedsBatch(c: Cap) {
    c == Metadata || c == Chathistory || c == LabeledResponse
  }

  /** Extensions that make this client want `c` without its own opt-in. */
  function Dependents(c: Cap): set<Cap> {
    match c
    case Batch => {Metadata, Chathistory, LabeledResponse}
    case MessageTags => {Chathistory, EchoMessage, LabeledResponse}
    case ServerTime => {Chathistory, EchoMessage}
    case _ => {}
  }

  // ---------- Lists of capabilities ----------

  /** The capabilities the commands ask for. */
  ghost function Asked(send: seq<Command>): set<Cap> {
    set x | x in send && x.CapReq? :: x.cap
  }

  /** Neither ends the negotiation nor disables a capability. */
  ghost predicate Plain(send: seq<Command>) {
    forall x :: x in send ==> !x.CapEnd? && !x.CapDisable?
  }

  lemma AskedSum(a: seq<Command>, b: seq<Command>)
    ensures Asked(a + b) == Asked(a) + Asked(b)
  {
  }

  // ---------- What a connection wants ----------

  function Push(s: seq<Cap>, condition: bool, c: Cap): (r: seq<Cap>)
    ensures forall x :: x in r <==> x in s || (condition && x == c)
    ensures Distinct(s) && c !in s ==> Distinct(r)
  {
    if condition then s + [c] else s
  }

  /** The extensions wanted for the options alone, in request order. */
  function Extensions(o: Options, utf8: bool): seq<Cap> {
    var s := Push([], (o.messageTags || o.chathistory || o.confirmedSending) && utf8, MessageTags);
    var s := Push(s, o.serverTime || o.chathistory || o.confirmedSending, ServerTime);
    var s := Push(s, o.batch || o.metadata || o.chathistory || (o.confirmedSending && utf8), Batch);
    var s := Push(s, o.metadata, Metadata);
    var s := Push(s, o.confirmedSending, EchoMessage);
    var s := Push(s, o.confirmedSending && utf8, LabeledResponse);
    var s := Push(s, o.accounts, AccountNotify);
    var s := Push(s, o.accounts, ExtendedJoin);
    Push(s, o.chathistory, Chathistory)
  }

  /** With those asked for only when a negotiation happens anyway. */
  function OptionalFor(o: Options, sasl: bool, utf8: bool): seq<Cap> {
    var s := Extensions(o, utf8);
    var anyway := sasl || s != [];
    Push(Push(s, anyway && utf8, AccountTag), anyway, Setname)
  }

  /** The extensions the user opted into directly. */
  function Chosen(o: Options, utf8: bool): seq<Cap> {
    var s := Push([], o.messageTags && utf8, MessageTags);
    var s := Push(s, o.serverTime, ServerTime);
    var s := Push(s, o.batch, Batch);
    var s := Push(s, o.metadata, Metadata);
    var s := Push(s, o.confirmedSending, EchoMessage);
    var s := Push(s, o.confirmedSending && utf8, LabeledResponse);
    var s := Push(s, o.accounts, AccountNotify);
    var s := Push(s, o.accounts, ExtendedJoin);
    Push(s, o.chathistory, Chathistory)
  }

  /** With those asked for only when a negotiation happens anyway. */
  function ExplicitFor(o: Options, sasl: bool, utf8: bool): seq<Cap> {
    var anyway := sasl || Extensions(o, utf8) != [];
    Push(Push(Chosen(o, utf8), anyway && utf8, AccountTag), anyway, Setname)
  }

  lemma ExtensionsWanted(o: Options, utf8: bool)
    ensures
      var s := Extensions(o, utf8);
      && Distinct(s) && Sasl !in s && AccountTag !in s && Setname !in s
      && (forall c :: c in s && NeedsBatch(c) ==> Batch in s)
      && (LabeledResponse in s ==> MessageTags in s)
      && (!utf8 ==> MessageTags !in s && LabeledResponse !in s)
  {
    hide Push, Distinct;
    UniqueNone();
  }

  lemma UniqueNone()
    ensures Distinct<Cap>([])
  {
  }

  lemma ExplicitWanted(o: Options, sasl: bool, utf8: bool)
    ensures forall c :: c in ExplicitFor(o, sasl, utf8) ==> c in OptionalFor(o, sasl, utf8)
  {
    hide Push, Distinct;
  }

  /** Each extension is wanted once, with everything it needs. */
  lemma WantedTogether(o: Options, sasl: bool, utf8: bool)
    ensures
      var s := OptionalFor(o, sasl, utf8);
      && Distinct(s) && Sasl !in s
      && (forall c :: c in ExplicitFor(o, sasl, utf8) ==> c in s)
      && (forall c :: c in s && NeedsBatch(c) ==> Batch in s)
      && (LabeledResponse in s ==> MessageTags in s)
      && (!utf8 ==> MessageTags !in s && LabeledResponse !in s && AccountTag !in s)
  {
    hide Push, Extensions, ExplicitFor;
    ExtensionsWanted(o, utf8);
    ExplicitWanted(o, sasl, utf8);
  }

  /** Whether a negotiation happens at all. */
  predicate Negotiates(o: Options, sasl: bool, utf8: bool) {
    || sasl || (o.messageTags && utf8) || o.serverTime || o.batch || o.metadata || o.chathistory
    || o.confirmedSending || o.accounts
  }

  /** What the user opted into: the extension itself, or one that is asked for
      whenever a negotiation happens. */
  predicate OptedInto(o: Options, sasl: bool, utf8: bool, c: Cap) {
    match c
    case MessageTags => o.messageTags && utf8
    case ServerTime => o.serverTime
    case Batch => o.batch
    case EchoMessage => o.confirmedSending
    case LabeledResponse => o.confirmedSending && utf8
    case AccountNotify => o.accounts
    case ExtendedJoin => o.accounts
    case AccountTag => utf8 && Negotiates(o, sasl, utf8)
    case Setname => Negotiates(o, sasl, utf8)
    case Metadata => o.metadata
    case Chathistory => o.chathistory
    case _ => false
  }

  /** What is asked for: an offered capability that is not enabled, that the
      user opted into or an offered one needs that the user opted into; and
      what needs batch or message tags, only once these are enabled. */
  ghost predicate Due(o: Options, sasl: bool, utf8: bool, offered: map<Cap, Option<string>>, enabled: set<Cap>,
                      c: Cap) {
    var history := o.chathistory && Chathistory in offered;
    var echo := o.confirmedSending && EchoMessage in offered;
    var labels := o.confirmedSending && utf8 && LabeledResponse in offered;
    && c in offered && c !in enabled
    && (c in {Metadata, Chathistory, LabeledResponse} ==> Batch in enabled)
    && (c == LabeledResponse ==> MessageTags in enabled)
    && (|| OptedInto(o, sasl, utf8, c)
        || (c == Batch && ((o.metadata && Metadata in offered) || history || labels))
        || (c == MessageTags && utf8 && (history || echo || labels))
        || (c == ServerTime && (history || echo)))
  }

  lemma ExtensionsMean(o: Options, utf8: bool)
    ensures Extensions(o, utf8) != [] <==> Negotiates(o, false, utf8)
  {
    hide Push;
    var s := Extensions(o, utf8);
    if s != [] {
      var c := s[0];
      assert c in s;
    }
    if Negotiates(o, false, utf8) {
      assert MessageTags in s || ServerTime in s || Batch in s || Metadata in s || Chathistory in s || EchoMessage in s
             || AccountNotify in s;
    }
  }

  lemma ExplicitMeans(o: Options, sasl: bool, utf8: bool)
    ensures forall c :: c in ExplicitFor(o, sasl, utf8) <==> OptedInto(o, sasl, utf8, c)
  {
    hide Push, Extensions, Negotiates;
    forall c
      ensures c in ExplicitFor(o, sasl, utf8) <==> OptedInto(o, sasl, utf8, c)
    {
      ExplicitHas(o, sasl, utf8, c);
    }
  }

  lemma ExplicitHas(o: Options, sasl: bool, utf8: bool, c: Cap)
    ensures c in ExplicitFor(o, sasl, utf8) <==> OptedInto(o, sasl, utf8, c)
  {
    NegotiatesAnyway(o, sasl, utf8);
    ExtensionsMean(o, utf8);
    ChosenHas(o, utf8, c);
    hide Push, Extensions, Chosen, Negotiates, Distinct;
  }

  lemma ChosenHas(o: Options, utf8: bool, c: Cap)
    ensures c in Chosen(o, utf8) <==>
              || (c == MessageTags && o.messageTags && utf8) || (c == ServerTime && o.serverTime)
              || (c == Batch && o.batch) || (c == Metadata && o.metadata) || (c == EchoMessage && o.confirmedSending)
              || (c == LabeledResponse && o.confirmedSending && utf8)
              || (c == AccountNotify && o.accounts) || (c == ExtendedJoin && o.accounts)
              || (c == Chathistory && o.chathistory)
  {
    hide Push, Distinct;
  }

  lemma NegotiatesAnyway(o: Options, sasl: bool, utf8: bool)
    ensures Negotiates(o, sasl, utf8) <==> sasl || Negotiates(o, false, utf8)
  {
  }

  lemma ExtensionsHave(o: Options, utf8: bool, c: Cap)
    ensures c in Extensions(o, utf8) <==>
              || (c == MessageTags && (o.messageTags || o.chathistory || o.confirmedSending) && utf8)
              || (c == ServerTime && (o.serverTime || o.chathistory || o.confirmedSending))
              || (c == Batch && (o.batch || o.metadata || o.chathistory || (o.confirmedSending && utf8)))
              || (c == Metadata && o.metadata) || (c == EchoMessage && o.confirmedSending)
              || (c == LabeledResponse && o.confirmedSending && utf8)
              || (c == AccountNotify && o.accounts) || (c == ExtendedJoin && o.accounts)
              || (c == Chathistory && o.chathistory)
  {
    hide Push, Distinct;
  }

  /** What is wanted: what the user opted into and what that needs. */
  lemma OptionalMeans(o: Options, sasl: bool, utf8: bool)
    ensures forall c :: c in OptionalFor(o, sasl, utf8) <==>
              || OptedInto(o, sasl, utf8, c)
              || (c == Batch && (o.metadata || o.chathistory || (o.confirmedSending && utf8)))
              || (c == MessageTags && utf8 && (o.chathistory || o.confirmedSending))
              || (c == ServerTime && (o.chathistory || o.confirmedSending))
  {
    hide OptionalFor, OptedInto;
    forall c
      ensures c in OptionalFor(o, sasl, utf8) <==>
                || OptedInto(o, sasl, utf8, c)
                || (c == Batch && (o.metadata || o.chathistory || (o.confirmedSending && utf8)))
                || (c == MessageTags && utf8 && (o.chathistory || o.confirmedSending))
                || (c == ServerTime && (o.chathistory || o.confirmedSending))
    {
      OptionalHas(o, sasl, utf8, c);
    }
  }

  lemma OptionalHas(o: Options, sasl: bool, utf8: bool, c: Cap)
    ensures c in OptionalFor(o, sasl, utf8) <==>
              || OptedInto(o, sasl, utf8, c)
              || (c == Batch && (o.metadata || o.chathistory || (o.confirmedSending && utf8)))
              || (c == MessageTags && utf8 && (o.chathistory || o.confirmedSending))
              || (c == ServerTime && (o.chathistory || o.confirmedSending))
  {
    hide Push, Extensions, Distinct;
    NegotiatesAnyway(o, sasl, utf8);
    ExtensionsMean(o, utf8);
    hide Negotiates;
    ExtensionsHave(o, utf8, c);
  }

  // ---------- The negotiation ----------

  class CapNegotiation {
    ghost const options: Options
    ghost const withSasl: bool
    ghost const utf8: bool
    var phase: Phase
    const optional: seq<Cap>
    const explicit: seq<Cap>
    var sasl: Option<Handshake>
    var offered: map<Cap, Option<string>>
    var enabled: set<Cap>
    /** Requests without an ACK or NAK yet. */
    var pending: seq<Cap>
    /** A multiline ACK until its last line. */
    var ackLines: seq<AckToken>
    /** Everything asked for so far, and how often CAP END was sent. */
    ghost var requested: set<Cap>
    ghost var ends: nat

    /** What holds at every moment. */
    ghost predicate Valid()
      reads this
    {
      && Configured() && Distinct(pending) && (forall c :: c in pending ==> c !in enabled && c in requested)
      && enabled <= requested && Sasl !in optional && Distinct(ackLines)
      && (forall c :: c in requested ==> c == Sasl || c in optional)
      && (phase.Inactive? || phase.Listing? ==> requested == {} && pending == [])
      && (phase.Listing? || phase.Requesting? ==> ends == 0)
      && ends <= 1 && |Unwanted(offered)| <= MAX_OFFERED
    }

    /** The lists are those of the options. */
    ghost predicate Configured() {
      optional == OptionalFor(options, withSasl, utf8) && explicit == ExplicitFor(options, withSasl, utf8)
    }

    predicate SaslDone()
      reads this
    {
      sasl.None? || sasl.value.complete
    }

    /** What holds between lines: nothing that needs batch is on, or about to
        be, without it, and requesting goes on only while something is due. */
    ghost predicate Settled()
      reads this
    {
      && (Batch !in enabled ==> forall c :: c in enabled || c in pending ==> !NeedsBatch(c))
      && !(phase.Requesting? && pending == [] && SaslDone())
    }

    constructor (o: Options, sasl: Option<Handshake>, utf8: bool)
      ensures Valid() && Settled() && phase.Inactive? && ends == 0
      ensures this.sasl == sasl && optional == OptionalFor(o, sasl.Some?, utf8) &&
              explicit == ExplicitFor(o, sasl.Some?, utf8)
      ensures options == o && withSasl == sasl.Some? && this.utf8 == utf8
      ensures offered == map[] && enabled == {} && pending == [] && ackLines == []
    {
      options, withSasl, this.utf8 := o, sasl.Some?, utf8;
      phase := Inactive;
      optional := OptionalFor(o, sasl.Some?, utf8);
      explicit := ExplicitFor(o, sasl.Some?, utf8);
      this.sasl, offered, enabled, pending, ackLines := sasl, map[], {}, [], [];
      requested, ends := {}, 0;
      WantedTogether(o, sasl.Some?, utf8);
    }

    /** Opens registration. */
    method Start() returns (command: Command)
      requires Valid() && Settled() && phase.Inactive? && ends == 0
      modifies this`phase, this`ends
      ensures Valid() && Settled()
      ensures (sasl.Some? || optional != []) ==> command == CapLs && phase.Listing? && ends == 0
      ensures !(sasl.Some? || optional != []) ==> command == CapEnd && phase.Inactive? && ends == 1
    {
      hide Configured;
      if sasl.Some? || optional != [] {
        phase := Listing;
        return CapLs;
      } else {
        ends := 1;
        return CapEnd;
      }
    }

    /** Registration completed (001). */
    method Registered() returns (ok: bool)
      requires Valid() && Settled()
      modifies this`sasl, this`phase
      ensures Valid() && Settled()
      ensures ok == old(SaslDone())
      ensures !ok ==> sasl == old(sasl) && phase == old(phase)
      ensures ok ==> sasl.None? && phase == if old(phase).Inactive? then Inactive else Ended
    {
      hide Configured;
      if sasl.Some? && !sasl.value.complete {
        return false;
      }
      sasl := None;
      if !phase.Inactive? {
        phase := Ended;
      }
      return true;
    }

    // ---------- The parts of a step ----------

    /** Keeps only what `Acknowledge` would act on, each once. */
    method AppendAck(tokens: seq<AckToken>)
      requires Distinct(ackLines)
      modifies this`ackLines
      ensures ackLines == Appended(old(ackLines), tokens, enabled, Members(pending)) && Distinct(ackLines)
    {
      hide Distinct, Members;
      for i := 0 to |tokens|
        invariant ackLines == Appended(old(ackLines), tokens[..i], enabled, Members(pending)) && Distinct(ackLines)
      {
        assert tokens[..i + 1][..i] == tokens[..i];
        InMembers(pending, tokens[i].cap);
        AppendDistinct(ackLines, tokens[i]);
        if Relevant(tokens[i]) && tokens[i] !in ackLines {
          ackLines := ackLines + [tokens[i]];
        }
      }
      assert tokens[..|tokens|] == tokens;
    }

    predicate Relevant(t: AckToken)
      reads this`enabled, this`pending
    {
      if t.Disable? then t.cap in enabled else t.cap in pending
    }

    /** Whether an optional capability may be asked for, unless it is
        pending. */
    predicate Requestable(c: Cap, offered: map<Cap, Option<string>>, enabled: set<Cap>) {
      && c in offered && c !in enabled
      && (NeedsBatch(c) ==> Batch in enabled)
      && (c == LabeledResponse ==> MessageTags in enabled)
      && (c in explicit || exists d :: d in Dependents(c) && d in optional && d in offered)
    }

    /** The optional capabilities that may be asked for. */
    ghost function Requestables(offered: map<Cap, Option<string>>, enabled: set<Cap>): (r: set<Cap>)
      ensures forall c :: c in r <==> c in optional && Requestable(c, offered, enabled)
    {
      set c | c in optional && Requestable(c, offered, enabled)
    }

    /** What is due, by the options. */
    ghost function DueNow(offered: map<Cap, Option<string>>, enabled: set<Cap>): set<Cap> {
      set c | c in offered && Due(options, withSasl, utf8, offered, enabled, c)
    }

    /** What may be asked for is what is due. */
    lemma RequestablesAreDue(offered: map<Cap, Option<string>>, enabled: set<Cap>)
      requires Configured()
      ensures Requestables(offered, enabled) == DueNow(offered, enabled)
    {
      hide OptionalFor, ExplicitFor, Requestables;
      OptionalMeans(options, withSasl, utf8);
      ExplicitMeans(options, withSasl, utf8);
      forall c
        ensures c in Requestables(offered, enabled) <==>
                  c in offered && Due(options, withSasl, utf8, offered, enabled, c)
      {
        IsDue(offered, enabled, c);
      }
    }

    lemma IsDue(offered: map<Cap, Option<string>>, enabled: set<Cap>, c: Cap)
      requires Configured()
      ensures c in optional && Requestable(c, offered, enabled) <==>
                c in offered && Due(options, withSasl, utf8, offered, enabled, c)
    {
      hide OptionalFor, ExplicitFor;
      OptionalMeans(options, withSasl, utf8);
      ExplicitMeans(options, withSasl, utf8);
      NeededMeans(offered, c);
    }

    /** Which offered extensions that are wanted need `c`. */
    lemma NeededMeans(offered: map<Cap, Option<string>>, c: Cap)
      requires Configured()
      ensures
        var history := options.chathistory && Chathistory in offered;
        var echo := options.confirmedSending && EchoMessage in offered;
        var labels := options.confirmedSending && utf8 && LabeledResponse in offered;
        (exists d :: d in Dependents(c) && d in optional && d in offered) <==>
          || (c == Batch && ((options.metadata && Metadata in offered) || history || labels))
          || (c == MessageTags && (history || echo || labels))
          || (c == ServerTime && (history || echo))
    {
      hide OptionalFor, ExplicitFor;
      OptionalMeans(options, withSasl, utf8);
      assert Metadata in optional <==> options.metadata;
      assert Chathistory in optional <==> options.chathistory;
      assert EchoMessage in optional <==> options.confirmedSending;
      assert LabeledResponse in optional <==> options.confirmedSending && utf8;
      hide Configured, OptedInto;
      assert c == Batch ==>
               Metadata in Dependents(c) && Chathistory in Dependents(c) && LabeledResponse in Dependents(c);
      assert c == MessageTags ==>
          Chathistory in Dependents(c) && EchoMessage in Dependents(c) && LabeledResponse in Dependents(c);
      assert c == ServerTime ==> Chathistory in Dependents(c) && EchoMessage in Dependents(c);
    }

    /** One grant enables the capability, and everything that then may be
        asked for is pending. */
    lemma Granted(offered: map<Cap, Option<string>>, e: set<Cap>, p: set<Cap>, c: Cap, enabled: set<Cap>,
                  pending: seq<Cap>, send: seq<Command>)
      requires c in p && Requestables(offered, e) <= p &&
               (Batch !in e ==> forall x :: x in e || x in p ==> !NeedsBatch(x))
      requires var s := AckedAll([Grant(c)], offered, Acked(e, p, {}));
               Enforced(s.enabled, s.pending, enabled, pending, send)
      ensures enabled == e + {c}
      ensures Members(pending) <= p - {c} + Requestables(offered, e + {c})
      ensures Requestables(offered, enabled) <= Members(pending)
    {
      assert [Grant(c)][..0] == [];
      var s := AckedOne(Grant(c), offered, Acked(e, p, {}));
      assert AckedAll([Grant(c)], offered, Acked(e, p, {})) == s;
    }

    /** With everything wanted on offer and nothing left to ask for, all of it
        is enabled. */
    lemma AllEnabled(offered: map<Cap, Option<string>>, enabled: set<Cap>)
      requires Configured() && (forall c :: c in optional ==> c in offered) && Requestables(offered, enabled) == {}
      ensures forall c :: c in optional ==> c in enabled
    {
      hide OptionalFor, ExplicitFor;
      WantedTogether(options, withSasl, utf8);
      OptionalMeans(options, withSasl, utf8);
      ExplicitMeans(options, withSasl, utf8);
      RequestablesAreDue(offered, enabled);
      assert forall c :: c in optional ==> c in offered && !Due(options, withSasl, utf8, offered, enabled, c);
      assert Batch in optional ==> Batch in enabled;
      assert MessageTags in optional ==> MessageTags in enabled;
    }

    /** Nothing that was just asked for needs a missing batch. */
    lemma RequestsStay(p: set<Cap>, e: set<Cap>, enabled: set<Cap>, pending: seq<Cap>, send: seq<Command>)
      requires Configured() && (Batch !in e ==> forall c :: c in e || c in p ==> !NeedsBatch(c))
      ensures Enforced(e, p + Requestables(offered, e), enabled, pending, send) ==>
                enabled == e && Members(pending) == p + DueNow(offered, e)
    {
      hide Configured;
      RequestablesAreDue(offered, e);
    }

    /** Asks once for every optional capability that may be asked for. */
    method RequestOptional() returns (send: seq<Command>, ghost more: seq<Cap>)
      requires Valid() && (phase.Requesting? || phase.Ended?)
      modifies this`pending, this`requested
      ensures Valid() && pending == old(pending) + more && send == Requests(more)
      ensures forall c :: c in more <==> c in optional && Requestable(c, offered, enabled) && c !in old(pending)
      ensures Members(pending) == Members(old(pending)) + Requestables(offered, enabled)
      ensures requested == old(requested) + Asked(send) && Plain(send)
      ensures Asked(send) == Requestables(offered, enabled) - Members(old(pending))
      ensures Members(pending) == Members(old(pending)) + DueNow(offered, enabled)
    {
      hide Due, DueNow, Configured, Requestable, Asked;
      send, more := [], [];
      assert Asked(send) == {} by {
        AskedNone();
      }
      for i := 0 to |optional|
        invariant pending == old(pending) + more && send == Requests(more)
        invariant Distinct(pending)
        invariant forall c ::
                    c in more <==> c in optional[..i] && Requestable(c, offered, enabled) && c !in old(pending)
        invariant requested == old(requested) + Asked(send)
        invariant forall c :: c in more ==> c in requested
        invariant forall c :: c in requested ==> c in old(requested) || c in optional
      {
        var name := optional[i];
        if name !in pending && Requestable(name, offered, enabled) {
          AskedOne(send, name);
          send := send + [CapReq(name)];
          pending := pending + [name];
          more := more + [name];
          requested := requested + {name};
        }
      }
      NotEnabled(more);
      RequestsAsk(more);
      RequestablesAreDue(offered, enabled);
    }

    /** One acknowledged token. False when SASL cannot begin. */
    method AcknowledgeOne(t: AckToken) returns (ok: bool, send: seq<Command>)
      requires Valid()
      modifies this`enabled, this`pending, this`requested, this`sasl
      ensures Valid() && requested == old(requested) + Asked(send) && Plain(send)
      ensures Acked(enabled, Members(pending), Asked(send)) ==
                AckedOne(t, offered, Acked(old(enabled), Members(old(pending)), {}))
      ensures Sasl in pending <==> Sasl in old(pending) && t != Grant(Sasl)
      ensures sasl == if t == Grant(Sasl) && Sasl in old(pending) then Begun(old(sasl)) else old(sasl)
      ensures ok <==> !(t == Grant(Sasl) && Sasl in old(pending) && old(sasl).Some? && !old(sasl).value.usable)
    {
      hide Configured, Asked, Requestable, Members, Except, Distinct, Unwanted;
      ok, send := true, [];
      AskedNone();
      InMembers(pending, t.cap);
      WithoutMember(pending, t.cap);
      if t.Disable? {
        enabled := enabled - {t.cap};
      } else if t.cap in pending {
        pending := Except(pending, t.cap);
        enabled := enabled + {t.cap};
        if t.cap == Sasl {
          ok := sasl.None? || sasl.value.usable;
          sasl := Begun(sasl);
          send := if sasl.Some? then [Authenticate(sasl.value.mechanism)] else [];
          AskedNothing(send);
        } else if t.cap == Batch || t.cap == MessageTags {
          ghost var more;
          send, more := RequestOptional();
        }
      }
    }

    /** What one acknowledged token makes of what is enabled, pending and
        asked for: a granted capability that is pending is enabled, and batch
        or message-tags let others be asked for. */
    ghost function AckedOne(t: AckToken, offered: map<Cap, Option<string>>, s: Acked): Acked {
      if t.Disable? then s.(enabled := s.enabled - {t.cap})
      else if t.cap !in s.pending then s
      else
        var enabled, pending := s.enabled + {t.cap}, s.pending - {t.cap};
        var more := if t.cap == Batch || t.cap == MessageTags then Requestables(offered, enabled) - pending else {};
        Acked(enabled, pending + more, s.asked + more)
    }

    /** The tokens one after the other. */
    ghost function AckedAll(tokens: seq<AckToken>, offered: map<Cap, Option<string>>, s: Acked): Acked {
      if tokens == [] then s
      else AckedOne(tokens[|tokens| - 1], offered, AckedAll(tokens[..|tokens| - 1], offered, s))
    }

    lemma AckedNext(tokens: seq<AckToken>, i: nat, offered: map<Cap, Option<string>>, s: Acked, e: set<Cap>,
                    p: set<Cap>, a: set<Cap>, more: Acked)
      requires i < |tokens| && AckedAll(tokens[..i], offered, s) == Acked(e, p, a)
      requires more == AckedOne(tokens[i], offered, Acked(e, p, {}))
      ensures AckedAll(tokens[..i + 1], offered, s) == more.(asked := a + more.asked)
    {
      hide Requestable;
      assert tokens[..i + 1][..i] == tokens[..i];
    }

    /** What that amounts to: a pending capability the ACK grants and does not
        disable is enabled, one it only disables is not, one it does not name
        stays as it was, and nothing is enabled or pending that was not
        asked for. */
    lemma {:induction false} AckedMeans(tokens: seq<AckToken>, offered: map<Cap, Option<string>>, e: set<Cap>,
                                        p: set<Cap>)
      ensures var s := AckedAll(tokens, offered, Acked(e, p, {}));
              Acknowledged(tokens, e, p, s.enabled, s.pending, s.asked)
    {
      if tokens != [] {
        hide Acknowledged, AckedOne;
        var front, last := tokens[..|tokens| - 1], tokens[|tokens| - 1];
        AckedMeans(front, offered, e, p);
        AckedMeansNext(front, last, offered, e, p, AckedAll(front, offered, Acked(e, p, {})));
        assert tokens == front + [last];
      }
    }

    lemma AckedMeansNext(front: seq<AckToken>, last: AckToken, offered: map<Cap, Option<string>>, e: set<Cap>,
                         p: set<Cap>, s: Acked)
      requires Acknowledged(front, e, p, s.enabled, s.pending, s.asked)
      ensures var r := AckedOne(last, offered, s);
              Acknowledged(front + [last], e, p, r.enabled, r.pending, r.asked)
    {
      hide Requestable, Requestables;
      assert forall x :: x in front + [last] <==> x in front || x == last;
    }

    /** Acts on a whole ACK. False when SASL cannot begin. */
    method Acknowledge(tokens: seq<AckToken>) returns (ok: bool, send: seq<Command>)
      requires Valid()
      modifies this`enabled, this`pending, this`requested, this`sasl
      ensures Valid() && requested == old(requested) + Asked(send) && Plain(send)
      ensures ok ==> Acked(enabled, Members(pending), Asked(send)) ==
                     AckedAll(tokens, offered, Acked(old(enabled), Members(old(pending)), {}))
      ensures ok ==> sasl == if Grant(Sasl) in tokens && Sasl in old(pending) then Begun(old(sasl)) else old(sasl)
      ensures ok <==> !(Grant(Sasl) in tokens && Sasl in old(pending) && old(sasl).Some? && !old(sasl).value.usable)
    {
      hide Configured, Valid, Asked, AckedOne, Members;
      ok, send := true, [];
      AskedNone();
      ghost var start := Acked(enabled, Members(pending), {});
      for i := 0 to |tokens|
        invariant Valid() && requested == old(requested) + Asked(send) && Plain(send)
        invariant Acked(enabled, Members(pending), Asked(send)) == AckedAll(tokens[..i], offered, start)
        invariant sasl == if Grant(Sasl) in tokens[..i] && Sasl in old(pending) then Begun(old(sasl)) else old(sasl)
        invariant Sasl in pending <==> Sasl in old(pending) && Grant(Sasl) !in tokens[..i]
        invariant !(Grant(Sasl) in tokens[..i] && Sasl in old(pending) && old(sasl).Some? && !old(sasl).value.usable)
      {
        ghost var (e, p, a) := (enabled, Members(pending), Asked(send));
        var more;
        ok, more := AcknowledgeOne(tokens[i]);
        AskedSum(send, more);
        send := send + more;
        if !ok {
          return;
        }
        AckedNext(tokens, i, offered, start, e, p, a, Acked(enabled, Members(pending), Asked(more)));
        assert tokens[..i + 1] == tokens[..i] + [tokens[i]];
      }
      assert tokens[..|tokens|] == tokens;
    }

    /** Drops declined requests. False when SASL was declined. */
    method Declined(caps: seq<Cap>) returns (ok: bool)
      requires Valid()
      modifies this`pending
      ensures Valid()
      ensures ok ==> forall c :: c in pending <==> c in old(pending) && c !in caps
      ensures ok <==> !(Sasl in caps && Sasl in old(pending))
    {
      hide Configured;
      ok := true;
      for i := 0 to |caps|
        invariant Valid()
        invariant forall c :: c in pending <==> c in old(pending) && c !in caps[..i]
        invariant Sasl in caps[..i] ==> Sasl !in old(pending)
      {
        if caps[i] in pending {
          pending := Except(pending, caps[i]);
          if caps[i] == Sasl {
            return false;
          }
        }
      }
    }

    /** Forgets withdrawn capabilities. */
    method Withdrawn(caps: seq<Cap>)
      requires Valid()
      modifies this`offered, this`pending, this`enabled
      ensures Valid()
      ensures forall c :: c in offered <==> c in old(offered) && c !in caps
      ensures forall c :: c in offered ==> offered[c] == old(offered)[c]
      ensures forall c :: c in pending <==> c in old(pending) && c !in caps
      ensures enabled == old(enabled) - (set c | c in caps)
    {
      hide Configured, Valid, Except;
      for i := 0 to |caps|
        invariant Valid()
        invariant forall c :: c in offered <==> c in old(offered) && c !in caps[..i]
        invariant forall c :: c in offered ==> offered[c] == old(offered)[c]
        invariant forall c :: c in pending <==> c in old(pending) && c !in caps[..i]
        invariant enabled == old(enabled) - (set c | c in caps[..i])
      {
        WithdrawnOne(caps[i]);
      }
      assert caps[..|caps|] == caps;
    }

    method WithdrawnOne(c: Cap)
      requires Valid()
      modifies this`offered, this`pending, this`enabled
      ensures Valid()
      ensures offered == old(offered) - {c} && pending == Except(old(pending), c) && enabled == old(enabled) - {c}
    {
      hide Configured, Unwanted;
      WithdrawKeeps(offered, c);
      offered := offered - {c};
      pending := Except(pending, c);
      enabled := enabled - {c};
    }

    predicate Wanted(c: Cap) {
      c == Sasl || c in optional
    }

    /** The capabilities kept that were never wanted. */
    ghost function Unwanted(offered: map<Cap, Option<string>>): set<Cap> {
      set c | c in offered && !Wanted(c)
    }

    lemma WithdrawKeeps(offered: map<Cap, Option<string>>, c: Cap)
      ensures |Unwanted(offered - {c})| <= |Unwanted(offered)|
    {
      SubsetSize(Unwanted(offered - {c}), Unwanted(offered));
    }

    lemma OfferKeeps(offered: map<Cap, Option<string>>, c: Cap, v: Option<string>)
      requires |Unwanted(offered)| <= MAX_OFFERED && (Wanted(c) || c in offered || |offered| < MAX_OFFERED)
      ensures |Unwanted(offered[c := v])| <= MAX_OFFERED
    {
      var next := Unwanted(offered[c := v]);
      if Wanted(c) || c in offered {
        assert next == Unwanted(offered);
      } else {
        assert next == Unwanted(offered) + {c};
        SubsetSize(Unwanted(offered), offered.Keys);
      }
    }

    /** The table after the offers: nothing known is lost, every capability
        that may be asked for or was known has the value last offered for it,
        and nothing else that was known changes. */
    ghost predicate Remembered(was: map<Cap, Option<string>>, offers: seq<Offer>, now: map<Cap, Option<string>>) {
      && (forall c :: c in was ==> c in now)
      && (forall c :: c in now && c !in was ==> LastOffer(offers, c).Some? && c != Other(""))
      && (forall c :: LastOffer(offers, c).Some? && (Wanted(c) || c in was || |now| < MAX_OFFERED) && c != Other("") ==>
            c in now)
      && (forall c :: LastOffer(offers, c).Some? && c in now && c != Other("") ==>
            now[c] == Kept(c, LastOffer(offers, c).value))
      && (forall c :: c in was && LastOffer(offers, c).None? ==> now[c] == was[c])
    }

    lemma RememberedNothing(was: map<Cap, Option<string>>)
      ensures Remembered(was, [], was)
    {
    }

    lemma RememberedNext(was: map<Cap, Option<string>>, offers: seq<Offer>, i: nat, now: map<Cap, Option<string>>)
      requires i < |offers| && Remembered(was, offers[..i], now)
      ensures
        var c := offers[i].cap;
        && (c != Other("") ==> Remembered(was, offers[..i + 1], now[c := Kept(c, offers[i].value)]))
        && (c == Other("") || !(Wanted(c) || c in now || |now| < MAX_OFFERED) ==> Remembered(was, offers[..i + 1], now))
    {
      hide Remembered;
      var c := offers[i].cap;
      if c != Other("") {
        RememberedStored(was, offers, i, now);
      }
      if c == Other("") || !(Wanted(c) || c in now || |now| < MAX_OFFERED) {
        RememberedSkipped(was, offers, i, now);
      }
    }

    lemma RememberedStored(was: map<Cap, Option<string>>, offers: seq<Offer>, i: nat, now: map<Cap, Option<string>>)
      requires i < |offers| && Remembered(was, offers[..i], now) && offers[i].cap != Other("")
      ensures Remembered(was, offers[..i + 1], now[offers[i].cap := Kept(offers[i].cap, offers[i].value)])
    {
      hide Kept, Wanted, LastOffer;
      LastOfferNext(offers, i);
      var (d, value) := (offers[i].cap, Kept(offers[i].cap, offers[i].value));
      SizeOfUpdate(now, d, value);
      var (next, after) := (offers[..i + 1], now[d := value]);
      assert LastOffer(next, d) == Some(offers[i].value);
      forall c | c != d
        ensures LastOffer(next, c) == LastOffer(offers[..i], c) && (c in after <==> c in now)
        ensures c in now ==> after[c] == now[c]
      {
      }
    }

    lemma RememberedSkipped(was: map<Cap, Option<string>>, offers: seq<Offer>, i: nat, now: map<Cap, Option<string>>)
      requires i < |offers| && Remembered(was, offers[..i], now)
      requires offers[i].cap == Other("") || !(Wanted(offers[i].cap) || offers[i].cap in now || |now| < MAX_OFFERED)
      ensures Remembered(was, offers[..i + 1], now)
    {
      hide Kept, Wanted, LastOffer;
      LastOfferNext(offers, i);
    }

    /** Remembers what the server offers: whatever may be asked for, and a
        bounded number of other capabilities. */
    method RememberOffers(offers: seq<Offer>)
      requires Valid()
      modifies this`offered
      ensures Valid()
      ensures Remembered(old(offered), offers, offered)
    {
      hide Configured, Kept, Unwanted, Remembered;
      RememberedNothing(offered);
      for i := 0 to |offers|
        invariant Valid()
        invariant Remembered(old(offered), offers[..i], offered)
      {
        var c := offers[i].cap;
        RememberedNext(old(offered), offers, i, offered);
        if c != Other("") && (Wanted(c) || c in offered || |offered| < MAX_OFFERED) {
          OfferKeeps(offered, c, Kept(c, offers[i].value));
          offered := offered[c := Kept(c, offers[i].value)];
        }
      }
      assert offers[..|offers|] == offers;
    }

    method RequestSasl() returns (send: seq<Command>)
      requires Valid() && phase.Requesting? && pending == [] && requested == {}
      modifies this`pending, this`requested
      ensures Valid() && pending == [Sasl] && requested == {Sasl}
      ensures Asked(send) == {Sasl} && Plain(send)
    {
      hide Configured, Requestable, Asked, Unwanted;
      AskedNone();
      AskedOne([], Sasl);
      send := [CapReq(Sasl)];
      assert [] + send == send;
      pending, requested := [Sasl], {Sasl};
    }

    /** The listing ended: asks for SASL, when it is configured and its
        mechanism offered, and for what is optional. */
    method RequestAfterListing() returns (r: Outcome)
      requires Valid() && phase.Listing?
      modifies this`phase, this`pending, this`requested
      ensures Valid() && phase.Requesting? && ends == 0
      ensures r.Err? <==> sasl.Some? && !(Sasl in offered && OffersMechanism(offered[Sasl], sasl.value.mechanism))
      ensures r.Ok? ==> requested == Asked(r.send) && Plain(r.send)
      ensures r.Ok? ==> Members(pending) == (if sasl.Some? then {Sasl} else {}) + Requestables(offered, enabled)
      ensures r.Ok? ==> Members(pending) == (if sasl.Some? then {Sasl} else {}) + DueNow(offered, enabled)
    {
      hide Due, DueNow, Configured, Requestable, Asked, OffersMechanism;
      phase := Requesting;
      var first := [];
      AskedNone();
      if sasl.Some? {
        if !(Sasl in offered && OffersMechanism(offered[Sasl], sasl.value.mechanism)) {
          return Err("Server does not offer SASL.");
        }
        first := RequestSasl();
      }
      ghost var more;
      var send;
      send, more := RequestOptional();
      AskedSum(first, send);
      RequestsAsk(more);
      return Ok(first + send);
    }

    /** What needs batch does not outlive it. */
    method EnforceDependencies() returns (send: seq<Command>)
      requires Valid()
      modifies this`enabled, this`pending
      ensures Valid()
      ensures forall c :: c in enabled <==> c in old(enabled) && (NeedsBatch(c) ==> Batch in old(enabled))
      ensures forall c :: c in pending <==> c in old(pending) && (NeedsBatch(c) ==> Batch in old(enabled))
      ensures forall x :: x in send <==>
                (x.CapDisable? && NeedsBatch(x.cap) && Batch !in old(enabled) &&
                 (x.cap in old(enabled) || x.cap in old(pending)))
    {
      hide Configured;
      send := [];
      if Batch in enabled {
        return;
      }
      var names := [Metadata, Chathistory, LabeledResponse];
      for i := 0 to 3
        invariant Valid()
        invariant forall c :: c in enabled <==> c in old(enabled) && c !in names[..i]
        invariant forall c :: c in pending <==> c in old(pending) && c !in names[..i]
        invariant forall x ::
                    x in send <==>
                      x.CapDisable? && x.cap in names[..i] && (x.cap in old(enabled) || x.cap in old(pending))
      {
        if names[i] in enabled || names[i] in pending {
          send := send + [CapDisable(names[i])];
        }
        Drop(names[i]);
      }
      assert names[..3] == names;
    }

    method Drop(c: Cap)
      requires Valid() && NeedsBatch(c)
      modifies this`enabled, this`pending
      ensures Valid() && enabled == old(enabled) - {c}
      ensures forall x :: x in pending <==> x in old(pending) && x != c
    {
      hide Configured;
      enabled := enabled - {c};
      pending := Except(pending, c);
    }

    method EndIfSettled() returns (send: seq<Command>)
      requires Valid()
      modifies this`phase, this`ends
      ensures Valid()
      ensures if old(phase).Requesting? && pending == [] && SaslDone()
              then send == [CapEnd] && phase.Ended? && ends == old(ends) + 1
              else send == [] && phase == old(phase) && ends == old(ends)
    {
      hide Configured;
      send := [];
      if phase.Requesting? && pending == [] && SaslDone() {
        send := [CapEnd];
        phase := Ended;
        ends := ends + 1;
      }
    }

    /** Advances negotiation by one line. After a step that is not refused,
        nothing depends on a missing batch, and CAP END went out exactly when
        requesting had nothing pending and SASL was complete. */
    method Observe(line: Line) returns (r: Outcome)
      requires Valid() && Settled()
      modifies this
      ensures Valid() && (r.Ok? ==> Settled())
      ensures old(phase).Inactive? ==> r == Ok([]) && phase.Inactive? && ends == old(ends)
      ensures r.Ok? ==> requested == old(requested) + Asked(r.send)
      ensures r.Ok? ==> (CapEnd in r.send <==> !old(phase).Ended? && phase.Ended?)
      ensures r.Ok? ==> ends == old(ends) + if CapEnd in r.send then 1 else 0
      ensures r.Ok? && CapEnd in r.send ==> pending == [] && SaslDone()
      ensures r.Ok? && CapEnd !in r.send ==>
                phase == if line.Ls? && !line.continued && old(phase).Listing? then Requesting else old(phase)
      ensures r.Ok? && !old(phase).Inactive? && Idle(line, old(phase)) ==>
                enabled == old(enabled) && Members(pending) == Members(old(pending))
      ensures !line.Ack? && !line.NotCap? ==> sasl == old(sasl)
      ensures r.Ok? && line.Ack? && sasl != old(sasl) ==>
                !line.continued && Sasl in old(pending) && sasl == Begun(old(sasl))
      ensures r.Ok? && SaslDone() && !old(SaslDone()) ==> line.NotCap? && line.reply.Proceeds? && line.reply.complete
      ensures r.Ok? && !old(phase).Inactive? && line.NotCap? && old(sasl).Some? ==>
                line.reply.Proceeds? && sasl == Some(old(sasl).value.(complete := line.reply.complete))
      ensures !line.Ack? ==> ackLines == old(ackLines)
      ensures !old(phase).Inactive? && line.Ack? && line.continued ==>
                ackLines == Appended(old(ackLines), line.tokens, old(enabled), Members(old(pending)))
      ensures !old(phase).Inactive? && line.Ack? && !line.continued ==> ackLines == []
      ensures r.Err? <==>
                !old(phase).Inactive? && Refuses(line, old(phase), old(sasl), offered, old(pending), old(ackLines))
      ensures !old(phase).Inactive? && Advertises(line, old(phase)) ==> Remembered(old(offered), line.offers, offered)
      ensures !old(phase).Inactive? && line.Del? ==> offered == old(offered) - (set c | c in line.caps)
      ensures old(phase).Inactive? || (!Advertises(line, old(phase)) && !line.Del?) ==> offered == old(offered)
      ensures r.Ok? && old(phase).Listing? && line.Ls? && !line.continued ==>
                Enforced({}, (if sasl.Some? then {Sasl} else {}) + Requestables(offered, {}), enabled, pending, r.send)
      ensures r.Ok? && !old(phase).Inactive? && !old(phase).Listing? && line.New? ==>
                Enforced(old(enabled), Members(old(pending)) + Requestables(offered, old(enabled)), enabled, pending,
                         r.send)
      ensures r.Ok? && old(phase).Listing? && line.Ls? && !line.continued ==>
                enabled == {} && Members(pending) == (if sasl.Some? then {Sasl} else {}) + DueNow(offered, {})
      ensures r.Ok? && !old(phase).Inactive? && !old(phase).Listing? && line.New? ==>
                enabled == old(enabled) && Members(pending) == Members(old(pending)) + DueNow(offered, enabled)
      ensures r.Ok? && !old(phase).Inactive? && line.Nak? ==>
                Enforced(old(enabled), Others(old(pending), line.caps), enabled, pending, r.send)
      ensures r.Ok? && !old(phase).Inactive? && line.Del? ==>
                Enforced(old(enabled) - (set c | c in line.caps), Others(old(pending), line.caps), enabled, pending,
                         r.send)
      ensures r.Ok? && !old(phase).Inactive? && line.Ack? && !line.continued ==>
                var start := Acked(old(enabled), Members(old(pending)), {});
                var s := AckedAll(Appended(old(ackLines), line.tokens, start.enabled, start.pending), offered, start);
                Asked(r.send) == s.asked && Enforced(s.enabled, s.pending, enabled, pending, r.send)
    {
      hide Configured, DueNow, Due, Requestables, Asked, Requestable, Unwanted, Remembered, Refuses, Acknowledged,
           Enforced, Plain;
      AskedNone();
      if phase.Inactive? {
        return Ok([]);
      }
      r := Receive(line);
      if r.Err? {
        return;
      }
      ghost var e, p := enabled, pending;
      var more := Conclude();
      EnforcedAfter(e, Members(p), enabled, pending, r.send, more);
      AskedSum(r.send, more);
      assert Asked(r.send + more) == Asked(r.send);
      RequestsStay(if sasl.Some? then {Sasl} else {}, {}, enabled, pending, more);
      RequestsStay(Members(old(pending)), old(enabled), enabled, pending, more);
      if Idle(line, old(phase)) {
        EnforcedNothing(e, Members(p), enabled, pending, more);
      }
      r := Ok(r.send + more);
    }

    /** What every line is followed by. */
    method Conclude() returns (send: seq<Command>)
      requires Valid()
      modifies this`phase, this`ends, this`enabled, this`pending
      ensures Valid() && Settled() && Asked(send) == {}
      ensures Enforced(old(enabled), Members(old(pending)), enabled, pending, send)
      ensures CapEnd in send <==> old(phase).Requesting? && pending == [] && SaslDone()
      ensures phase == (if CapEnd in send then Ended else old(phase)) &&
              ends == old(ends) + if CapEnd in send then 1 else 0
    {
      hide Configured, Unwanted, Asked;
      var more := EnforceDependencies();
      var end := EndIfSettled();
      send := more + end;
      AskedNothing(send);
    }

    /** What the line itself changes. */
    method Receive(line: Line) returns (r: Outcome)
      requires Valid() && !phase.Inactive?
      modifies this`phase, this`sasl, this`offered, this`enabled, this`pending, this`ackLines, this`requested
      ensures Valid()
      ensures r.Ok? ==> requested == old(requested) + Asked(r.send) && Plain(r.send)
      ensures r.Ok? ==> phase == if line.Ls? && !line.continued && old(phase).Listing? then Requesting else old(phase)
      ensures r.Ok? && line.Nak? ==> enabled == old(enabled) && Members(pending) == Others(old(pending), line.caps)
      ensures r.Ok? && line.Del? ==> enabled == old(enabled) - (set c | c in line.caps)
      ensures r.Ok? && line.Del? ==> Members(pending) == Others(old(pending), line.caps)
      ensures line.Ack? && !line.continued ==> ackLines == []
      ensures line.Ack? && line.continued ==>
                ackLines == Appended(old(ackLines), line.tokens, old(enabled), Members(old(pending)))
      ensures !line.Ack? ==> ackLines == old(ackLines)
      ensures !line.Ack? && !line.NotCap? ==> sasl == old(sasl)
      ensures r.Ok? && line.Ack? && sasl != old(sasl) ==>
                !line.continued && Sasl in old(pending) && sasl == Begun(old(sasl))
      ensures r.Ok? && line.NotCap? && old(sasl).Some? ==>
                line.reply.Proceeds? && sasl == Some(old(sasl).value.(complete := line.reply.complete))
      ensures r.Ok? && line.Ack? && !line.continued ==>
                var start := Acked(old(enabled), Members(old(pending)), {});
                Acked(enabled, Members(pending), Asked(r.send)) ==
                AckedAll(Appended(old(ackLines), line.tokens, start.enabled, start.pending), offered, start)
      ensures r.Ok? && line.Ls? && !line.continued && old(phase).Listing? ==>
                enabled == {} &&
                Members(pending) == (if sasl.Some? then {Sasl} else {}) + Requestables(offered, enabled)
      ensures r.Ok? && line.New? && !old(phase).Listing? ==>
                enabled == old(enabled) && Members(pending) == Members(old(pending)) + Requestables(offered, enabled)
      ensures r.Ok? && Idle(line, old(phase)) ==> enabled == old(enabled) && pending == old(pending)
      ensures Advertises(line, old(phase)) ==> Remembered(old(offered), line.offers, offered)
      ensures line.Del? ==> offered == old(offered) - (set c | c in line.caps)
      ensures !Advertises(line, old(phase)) && !line.Del? ==> offered == old(offered)
      ensures r.Err? <==> Refuses(line, old(phase), old(sasl), offered, old(pending), old(ackLines))
    {
      hide Configured, Asked, Requestable, Unwanted, Acknowledged;
      AskedNone();
      match line {
        case Ls(continued, offers) =>
          if phase.Listing? {
            RememberOffers(offers);
            if !continued {
              r := RequestAfterListing();
              return;
            }
          }
          return Ok([]);
        case Ack(continued, tokens) =>
          r := ReceiveAck(continued, tokens);
        case Nak(caps) =>
          var ok := Declined(caps);
          return if ok then Ok([]) else Err("Server rejected SASL capability.");
        case New(offers) =>
          RememberOffers(offers);
          if !phase.Listing? {
            ghost var more;
            var send;
            send, more := RequestOptional();
            RequestsAsk(more);
            return Ok(send);
          }
          return Ok([]);
        case Del(caps) =>
          Withdrawn(caps);
          return Ok([]);
        case OtherSubcommand =>
          return Ok([]);
        case NotCap(reply) =>
          if sasl.Some? {
            match reply {
              case Refused(error) => return Err(error);
              case Proceeds(complete, lines) =>
                sasl := Some(sasl.value.(complete := complete));
                var send := seq(|lines|, i requires 0 <= i < |lines| => Authenticate(lines[i]));
                AskedNothing(send);
                return Ok(send);
            }
          }
          return Ok([]);
      }
    }

    method ReceiveAck(continued: bool, tokens: seq<AckToken>) returns (r: Outcome)
      requires Valid()
      modifies this`sasl, this`enabled, this`pending, this`ackLines, this`requested
      ensures Valid()
      ensures r.Ok? ==> requested == old(requested) + Asked(r.send) && Plain(r.send)
      ensures r.Ok? && continued ==> enabled == old(enabled) && pending == old(pending)
      ensures continued ==> sasl == old(sasl)
      ensures r.Ok? && sasl != old(sasl) ==> Sasl in old(pending) && sasl == Begun(old(sasl))
      ensures r.Err? <==>
                !continued && old(sasl).Some? && !old(sasl).value.usable && Sasl in old(pending) &&
                (Grant(Sasl) in old(ackLines) || Grant(Sasl) in tokens)
      ensures !continued ==> ackLines == []
      ensures continued ==> ackLines == Appended(old(ackLines), tokens, old(enabled), Members(old(pending)))
      ensures r.Ok? && !continued ==>
                var start := Acked(old(enabled), Members(old(pending)), {});
                Acked(enabled, Members(pending), Asked(r.send)) ==
                AckedAll(Appended(old(ackLines), tokens, start.enabled, start.pending), offered, start)
    {
      hide Configured, Asked, Acknowledged;
      AskedNone();
      AppendAck(tokens);
      if continued {
        return Ok([]);
      }
      var all := ackLines;
      ackLines := [];
      var ok, send := Acknowledge(all);
      return if ok then Ok(send) else Err("SASL cannot begin.");
    }

    lemma NotEnabled(more: seq<Cap>)
      requires forall c :: c in more ==> Requestable(c, offered, enabled)
      ensures forall c :: c in more ==> c !in enabled
    {
    }
  }

  /** The value kept of an offer. An explicit list of mechanisms that is too
      long to keep offers none, rather than any. */
  function Kept(c: Cap, value: Option<string>): Option<string> {
    if value.Some? && Bytes(value.value) <= MAX_VALUE_BYTES then value
    else if value.Some? && c == Sasl then Some("")
    else None
  }

  /** The value of the last offer of `c`. */
  function LastOffer(offers: seq<Offer>, c: Cap): Option<Option<string>> {
    if offers == [] then None
    else if offers[|offers| - 1].cap == c then Some(offers[|offers| - 1].value)
    else LastOffer(offers[..|offers| - 1], c)
  }

  lemma LastOfferNext(offers: seq<Offer>, i: nat)
    requires i < |offers|
    ensures forall c :: LastOffer(offers[..i + 1], c) ==
                        if offers[i].cap == c then Some(offers[i].value) else LastOffer(offers[..i], c)
  {
    var next := offers[..i + 1];
    assert next[..|next| - 1] == offers[..i];
    forall c
      ensures LastOffer(next, c) == if offers[i].cap == c then Some(offers[i].value) else LastOffer(offers[..i], c)
    {
    }
  }

  /** Whether a mechanism is among those offered; a bare offer allows any. */
  predicate OffersMechanism(value: Option<string>, mechanism: string) {
    value.None? || ToAsciiLower(mechanism) in SplitCommas(ToAsciiLower(value.value))
  }

  function SplitCommas(s: string): (parts: seq<string>)
    ensures parts != []
  {
    if s == [] then [""]
    else
      var rest := SplitCommas(s[1..]);
      if s[0] == ',' then [""] + rest else [[s[0]] + rest[0]] + rest[1..]
  }

  /** A list offers the mechanisms that stand between its commas, in whatever
      case; a bare offer any; and a list too long to keep none. */
  lemma MechanismMeans(value: string, mechanism: string)
    ensures OffersMechanism(None, mechanism)
    ensures OffersMechanism(Some(value), mechanism) <==>
              exists i, j :: IsPart(value, i, j) && Same(Ascii, mechanism, value[i..j])
    ensures Bytes(value) <= MAX_VALUE_BYTES ==> forall c :: Kept(c, Some(value)) == Some(value)
    ensures Bytes(value) > MAX_VALUE_BYTES ==> forall c ::
              if c == Sasl
              then Kept(c, Some(value)).Some? && (OffersMechanism(Kept(c, Some(value)), mechanism) ==> mechanism == "")
              else Kept(c, Some(value)).None?
    ensures forall c :: Kept(c, None).None?
  {
    hide Bytes, SplitCommas, FoldChar;
    var (listed, wanted) := (ToAsciiLower(value), ToAsciiLower(mechanism));
    SplitMeans(listed, wanted);
    forall i, j
      ensures IsPart(listed, i, j) <==> IsPart(value, i, j)
      ensures IsPart(value, i, j) ==> listed[i..j] == ToAsciiLower(value[i..j])
    {
      CommaStays(value);
    }
    SplitNothing();
  }

  lemma SplitNothing()
    ensures SplitCommas(ToAsciiLower("")) == [""]
  {
  }

  lemma CommaStays(s: string)
    ensures forall k :: 0 <= k < |s| ==> (ToAsciiLower(s)[k] == ',' <==> s[k] == ',')
  {
  }

  /** The parts of a list are what stands between its commas. */
  lemma SplitMeans(s: string, part: string)
    ensures part in SplitCommas(s) <==> exists i, j :: IsPart(s, i, j) && s[i..j] == part
  {
    SplitFirst(s, part);
    SplitLater(s, part);
    assert part in SplitCommas(s) <==> part == SplitCommas(s)[0] || part in SplitCommas(s)[1..];
  }

  lemma {:induction false} SplitFirst(s: string, part: string)
    ensures SplitCommas(s)[0] == part <==> exists j :: IsPart(s, 0, j) && s[0..j] == part
  {
    if s == "" {
      assert IsPart(s, 0, 0);
    } else if s[0] == ',' {
      assert IsPart(s, 0, 0);
    } else {
      var t := s[1..];
      if part != "" {
        SplitFirst(t, part[1..]);
      }
      if SplitCommas(s)[0] == part {
        var j :| IsPart(t, 0, j) && t[0..j] == part[1..];
        assert IsPart(s, 0, j + 1) && s[0..j + 1] == [s[0]] + t[0..j];
      }
      if j :| IsPart(s, 0, j) && s[0..j] == part {
        assert IsPart(t, 0, j - 1) && t[0..j - 1] == part[1..];
      }
    }
  }

  lemma {:induction false} SplitLater(s: string, part: string)
    ensures part in SplitCommas(s)[1..] <==> exists i, j :: i > 0 && IsPart(s, i, j) && s[i..j] == part
  {
    if s != "" {
      var t := s[1..];
      SplitLater(t, part);
      SplitFirst(t, part);
      assert SplitCommas(s)[1..] == if s[0] == ',' then SplitCommas(t) else SplitCommas(t)[1..];
      assert part in SplitCommas(t) <==> part == SplitCommas(t)[0] || part in SplitCommas(t)[1..];
      forall i, j | i >= 0 && (i == 0 ==> s[0] == ',')
        ensures IsPart(t, i, j) && t[i..j] == part <==> IsPart(s, i + 1, j + 1) && s[i + 1..j + 1] == part
      {
        PartShifts(s, i, j);
      }
      if part in SplitCommas(s)[1..] {
        var i, j :| i >= 0 && (i == 0 ==> s[0] == ',') && IsPart(t, i, j) && t[i..j] == part;
        assert IsPart(s, i + 1, j + 1) && s[i + 1..j + 1] == part;
      }
      if i, j :| i > 0 && IsPart(s, i, j) && s[i..j] == part {
        assert IsPart(t, i - 1, j - 1) && t[i - 1..j - 1] == part;
      }
    }
  }

  lemma PartShifts(s: string, i: int, j: int)
    requires s != "" && i >= 0 && (i == 0 ==> s[0] == ',')
    ensures IsPart(s[1..], i, j) <==> IsPart(s, i + 1, j + 1)
    ensures 0 <= i <= j < |s| ==> s[1..][i..j] == s[i + 1..j + 1]
  {
  }

  /** The text from `i` to `j` stands between two commas, or the ends. */
  ghost predicate IsPart(s: string, i: int, j: int) {
    && 0 <= i <= j <= |s| && (i == 0 || s[i - 1] == ',') && (j == |s| || s[j] == ',')
    && forall k :: i <= k < j ==> s[k] != ','
  }

  /** Whether a line tells what the server offers. */
  predicate Advertises(line: Line, phase: Phase) {
    line.New? || (line.Ls? && phase.Listing?)
  }

  /** Whether a line neither asks for capabilities nor settles requests. */
  predicate Idle(line: Line, phase: Phase) {
    match line
    case Ls(continued, _) => continued || !phase.Listing?
    case New(_) => phase.Listing?
    case Ack(continued, _) => continued
    case Nak(_) => false
    case Del(_) => false
    case _ => true
  }

  /** Whether a line ends the negotiation in an error: a SASL mechanism that
      is not offered, cannot begin, is declined, or fails. */
  predicate Refuses(line: Line, phase: Phase, sasl: Option<Handshake>, offered: map<Cap, Option<string>>,
                    pending: seq<Cap>, ackLines: seq<AckToken>) {
    match line
    case Ls(continued, _) =>
      phase.Listing? && !continued && sasl.Some? &&
      !(Sasl in offered && OffersMechanism(offered[Sasl], sasl.value.mechanism))
    case Ack(continued, tokens) =>
      && !continued && sasl.Some? && !sasl.value.usable && Sasl in pending
      && (Grant(Sasl) in ackLines || Grant(Sasl) in tokens)
    case Nak(caps) => Sasl in caps && Sasl in pending
    case NotCap(reply) => sasl.Some? && reply.Refused?
    case _ => false
  }

  function Begun(sasl: Option<Handshake>): Option<Handshake> {
    if sasl.Some? then Some(sasl.value.(complete := false)) else None
  }

  ghost predicate Acknowledged(tokens: seq<AckToken>, e0: set<Cap>, p0: set<Cap>, e: set<Cap>, p: set<Cap>,
                               asked: set<Cap>) {
    && (forall c :: Grant(c) in tokens && Disable(c) !in tokens && c in p0 ==> c in e)
    && (forall c :: Disable(c) in tokens && Grant(c) !in tokens ==> c !in e)
    && (forall c :: Disable(c) !in tokens && c in e0 ==> c in e)
    && (forall c :: c in e ==> c in e0 || Grant(c) in tokens)
    && (forall c :: c in e && c !in e0 ==> c in p0 || c in asked)
    && (forall c :: c in p0 && Grant(c) !in tokens ==> c in p)
    && (forall c :: c in p0 && Grant(c) in tokens && c !in asked ==> c !in p)
    && (forall c :: c in p ==> c in p0 || c in asked)
  }

  /** The held tokens with those of another line that concern what is enabled
      or pending, each once. */
  ghost function Appended(kept: seq<AckToken>, tokens: seq<AckToken>, enabled: set<Cap>,
                          pending: set<Cap>): (r: seq<AckToken>)
    ensures forall t ::
              t in r <==> t in kept || (t in tokens && if t.Disable? then t.cap in enabled else t.cap in pending)
  {
    if tokens == [] then kept
    else
      var last := tokens[|tokens| - 1];
      assert tokens == tokens[..|tokens| - 1] + [last];
      var before := Appended(kept, tokens[..|tokens| - 1], enabled, pending);
      if (if last.Disable? then last.cap in enabled else last.cap in pending) && last !in before then before + [last]
      else before
  }

  lemma WithoutMember(s: seq<Cap>, c: Cap)
    ensures Members(Except(s, c)) == Members(s) - {c}
  {
    hide Except;
  }

  lemma InMembers(s: seq<Cap>, c: Cap)
    ensures c in Members(s) <==> c in s
  {
  }

  ghost function Members(s: seq<Cap>): set<Cap> {
    set c | c in s
  }

  ghost function Others(s: seq<Cap>, caps: seq<Cap>): set<Cap> {
    set c | c in s && c !in caps
  }

  /** What is left of `e` enabled and `p` pending capabilities: what needs
      batch goes unless it is enabled, and the server is told. */
  ghost predicate Enforced(e: set<Cap>, p: set<Cap>, enabled: set<Cap>, pending: seq<Cap>, send: seq<Command>) {
    && (forall c :: c in enabled <==> c in e && (NeedsBatch(c) ==> Batch in e))
    && (forall c :: c in pending <==> c in p && (NeedsBatch(c) ==> Batch in e))
    && forall c :: CapDisable(c) in send <==> NeedsBatch(c) && Batch !in e && (c in e || c in p)
  }

  lemma EnforcedAfter(e: set<Cap>, p: set<Cap>, enabled: set<Cap>, pending: seq<Cap>, plain: seq<Command>,
                      send: seq<Command>)
    requires Plain(plain) && Enforced(e, p, enabled, pending, send)
    ensures Enforced(e, p, enabled, pending, plain + send) && (CapEnd in plain + send <==> CapEnd in send)
  {
  }

  lemma EnforcedNothing(e: set<Cap>, p: set<Cap>, enabled: set<Cap>, pending: seq<Cap>, send: seq<Command>)
    requires Enforced(e, p, enabled, pending, send)
    requires Batch !in e ==> forall c :: c in e || c in p ==> !NeedsBatch(c)
    ensures enabled == e && Members(pending) == p
  {
  }

  lemma AskedNothing(send: seq<Command>)
    requires forall x :: x in send ==> !x.CapReq?
    ensures Asked(send) == {}
  {
  }

  lemma RequestsAsk(more: seq<Cap>)
    ensures Asked(Requests(more)) == (set c | c in more) && Plain(Requests(more))
  {
    forall c | c in more
      ensures c in Asked(Requests(more))
    {
      var i :| 0 <= i < |more| && more[i] == c;
      assert Requests(more)[i] == CapReq(c);
    }
  }

  ghost function Requests(s: seq<Cap>): seq<Command> {
    seq(|s|, i requires 0 <= i < |s| => CapReq(s[i]))
  }

  lemma AskedNone()
    ensures Asked([]) == {}
  {
  }

  lemma AskedOne(send: seq<Command>, c: Cap)
    ensures Asked(send + [CapReq(c)]) == Asked(send) + {c}
  {
    AskedSum(send, [CapReq(c)]);
    assert CapReq(c) in [CapReq(c)];
  }

  // ---------- A server that grants everything ----------

  /** An offer of each capability. */
  function OffersOf(caps: seq<Cap>): (offers: seq<Offer>)
    ensures |offers| == |caps| && forall i :: 0 <= i < |offers| ==> offers[i] == Offer(caps[i], None)
  {
    seq(|caps|, i requires 0 <= i < |caps| => Offer(caps[i], None))
  }

  lemma {:induction false} OfferedLast(caps: seq<Cap>, c: Cap)
    requires c in caps
    ensures LastOffer(OffersOf(caps), c) == Some(None)
  {
    var front, last := caps[..|caps| - 1], caps[|caps| - 1];
    assert OffersOf(caps)[..|caps| - 1] == OffersOf(front);
    if last != c {
      assert c in front;
      OfferedLast(front, c);
    }
  }

  /** Everything wanted is on offer, and what may be asked for is pending. */
  ghost predicate Granting(n: CapNegotiation)
    reads n
  {
    && n.Valid() && n.Settled() && (n.phase.Requesting? || n.phase.Ended?) && (n.phase.Ended? ==> n.ends == 1)
    && n.ackLines == [] && (forall c :: c in n.optional ==> c in n.offered)
    && n.Requestables(n.offered, n.enabled) <= Members(n.pending)
    && (n.withSasl <==> n.sasl.Some?) && (n.sasl.Some? ==> n.sasl.value.usable)
    && (n.withSasl <==> Sasl in n.enabled || Sasl in n.pending)
  }

  lemma OffersRemembered(n: CapNegotiation, caps: seq<Cap>, offered: map<Cap, Option<string>>)
    requires n.Remembered(map[], OffersOf(caps), offered)
    requires forall c :: c in caps ==> n.Wanted(c) && c != Other("")
    ensures forall c :: c in caps ==> c in offered && offered[c] == None
  {
    forall c | c in caps ensures c in offered && offered[c] == None {
      OfferedLast(caps, c);
    }
  }

  method ListEverything(n: CapNegotiation, caps: seq<Cap>)
    requires n.Valid() && n.Settled() && n.phase.Listing? && n.offered == map[] && n.ackLines == []
    requires (n.withSasl <==> n.sasl.Some?) && (n.sasl.Some? ==> n.sasl.value.usable)
    requires forall c :: c in caps <==> c in n.optional || (c == Sasl && n.withSasl)
    modifies n
    ensures Granting(n) && n.sasl == old(n.sasl)
  {
    WantedNames(n.options, n.withSasl, n.utf8);
    var r := n.Observe(Ls(false, OffersOf(caps)));
    OffersRemembered(n, caps, n.offered);
  }

  lemma WantedNames(o: Options, sasl: bool, utf8: bool)
    ensures Other("") !in OptionalFor(o, sasl, utf8)
  {
    hide OptionalFor;
    OptionalMeans(o, sasl, utf8);
  }

  method GrantFirst(n: CapNegotiation)
    requires Granting(n) && n.pending != []
    modifies n
    ensures Granting(n) && n.enabled == old(n.enabled) + {old(n.pending)[0]} && n.pending != old(n.pending)
  {
    hide CapNegotiation.Configured, CapNegotiation.Requestables, CapNegotiation.Remembered, CapNegotiation.DueNow,
         Asked,
         Acknowledged, Plain, CapNegotiation.Unwanted;
    ghost var e, p := n.enabled, Members(n.pending);
    var c := n.pending[0];
    var r := n.Observe(Ack(false, [Grant(c)]));
    n.Granted(n.offered, e, p, c, n.enabled, n.pending, r.send);
  }

  /** A run against a server that offers and grants everything wanted: it ends,
      with CAP END sent once, and everything wanted is enabled. */
  method GrantsEverything(o: Options, sasl: Option<Handshake>, utf8: bool) returns (n: CapNegotiation)
    requires sasl.Some? ==> sasl.value.usable
    ensures fresh(n) && n.Valid() && n.Settled() && n.ends == 1 && n.pending == []
    ensures n.options == o && n.withSasl == sasl.Some? && n.utf8 == utf8
    ensures forall c :: c in n.enabled <==> c in OptionalFor(o, sasl.Some?, utf8) || (c == Sasl && sasl.Some?)
  {
    hide CapNegotiation.Configured, CapNegotiation.Requestables, CapNegotiation.Remembered, CapNegotiation.DueNow,
         Asked,
         Acknowledged, Plain, CapNegotiation.Unwanted;
    n := new CapNegotiation(o, sasl, utf8);
    IsConfigured(n);
    var command := n.Start();
    if n.phase.Inactive? {
      return;
    }
    var caps := n.optional + if sasl.Some? then [Sasl] else [];
    ListEverything(n, caps);
    GrantAll(n, caps);
  }

  method GrantAll(n: CapNegotiation, caps: seq<Cap>)
    requires Granting(n) && forall c :: c in caps <==> c in n.optional || (c == Sasl && n.withSasl)
    modifies n
    ensures n.Valid() && n.Settled() && n.ends == 1 && n.pending == []
    ensures forall c :: c in n.enabled <==> c in n.optional || (c == Sasl && n.withSasl)
  {
    hide Granting, CapNegotiation.Valid, CapNegotiation.Settled;
    while n.pending != []
      invariant Granting(n)
      decreases (set c | c in caps) - n.enabled
    {
      PendingWanted(n, caps);
      GrantFirst(n);
    }
    Finish(n);
  }

  method Finish(n: CapNegotiation)
    requires Granting(n) && n.pending == []
    modifies n
    ensures n.Valid() && n.Settled() && n.ends == 1 && n.pending == []
    ensures forall c :: c in n.enabled <==> c in n.optional || (c == Sasl && n.withSasl)
  {
    hide CapNegotiation.Configured, CapNegotiation.Requestables, CapNegotiation.Remembered, CapNegotiation.DueNow,
         Asked,
         Acknowledged, Plain, CapNegotiation.Unwanted, Enforced;
    IsConfigured(n);
    n.AllEnabled(n.offered, n.enabled);
    EnabledWanted(n);
    if n.sasl.Some? && !n.sasl.value.complete {
      var r := n.Observe(NotCap(Proceeds(true, [])));
      NoMembers(n.pending);
    }
  }

  lemma NoMembers(s: seq<Cap>)
    requires Members(s) == {}
    ensures s == []
  {
    if s != [] {
      assert s[0] in Members(s);
    }
  }

  lemma IsConfigured(n: CapNegotiation)
    requires n.Valid()
    ensures n.Configured() && n.optional == OptionalFor(n.options, n.withSasl, n.utf8)
  {
  }

  lemma PendingWanted(n: CapNegotiation, caps: seq<Cap>)
    requires Granting(n) && forall c :: c in caps <==> c in n.optional || (c == Sasl && n.withSasl)
    ensures forall c :: c in n.pending ==> c in caps && c !in n.enabled
  {
  }

  lemma EnabledWanted(n: CapNegotiation)
    requires n.Valid() && (Sasl in n.enabled ==> n.withSasl)
    ensures forall c :: c in n.enabled ==> c in n.optional || (c == Sasl && n.withSasl)
  {
  }
}
