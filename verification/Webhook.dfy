/** The webhook: who may post, what is accepted, and what an accepted event sets off. */
module Webhook {
  import opened Deployment
  import opened Domain
  import Hex
  import Store
  import P = Protocol
  import R = Repository

  datatype Payload = Payload(
    ticketID: string,
    kind: string,
    cpf: string,
    previousStatus: string,
    newStatus: string,
    title: string,
    description: Option<string>,
    timestamp: string)

  /** Keys, and the functions this service takes from its libraries. */
  datatype Config = Config(
    webhookSecret: Bytes,
    cpfKey: Bytes,
    hmac: (Bytes, Bytes) -> Bytes,          // of data, under a key
    sha256: Bytes -> Bytes,
    utf8: string -> Bytes,
    parse: Bytes -> Option<Payload>,        // the JSON body
    instant: string -> Option<int>)         // RFC 3339

  /** A request as it comes in; None for a body that could not be read. */
  datatype Request = Request(body: Option<Bytes>, signature: string)

  datatype Decision = Refuse(code: int) | Accept(e: InsertParams)

  const SIGNATURE_PREFIX := "sha256="

  predicate ValidSignature(cfg: Config, header: string, body: Bytes) {
    && SIGNATURE_PREFIX < header
    && Hex.Decode(header[|SIGNATURE_PREFIX|..]) == Some(cfg.hmac(body, cfg.webhookSecret))
  }

  predicate IsCpf(s: string) {
    |s| == 11 && forall i :: 0 <= i < |s| ==> '0' <= s[i] <= '9'
  }

  predicate IsStatus(s: string) {
    s in {"open", "under_analysis", "in_progress", "completed"}
  }

  predicate ValidPayload(p: Payload) {
    && p.ticketID != "" && p.kind == "status_change" && IsCpf(p.cpf)
    && IsStatus(p.previousStatus) && IsStatus(p.newStatus)
    && p.title != "" && p.timestamp != ""
  }

  /** The checks in the order they are made: read, authenticate, parse, validate, read the instant. */
  function Decide(cfg: Config, req: Request): Decision {
    if req.body.None? then Refuse(400)
    else
      var body := req.body.value;
      if !ValidSignature(cfg, req.signature, body) then Refuse(401)
      else if cfg.parse(body).None? then Refuse(400)
      else
        var p := cfg.parse(body).value;
        if !ValidPayload(p) then Refuse(400)
        else if cfg.instant(p.timestamp).None? then Refuse(400)
        else
          Accept(InsertParams(
            p.ticketID, p.kind, cfg.hmac(cfg.utf8(p.cpf), cfg.cpfKey), p.previousStatus, p.newStatus, p.title,
            p.description, cfg.instant(p.timestamp).value, cfg.sha256(body)))
  }

  /** The header is accepted exactly when it is the prefix followed by the HMAC of the body in
      hexadecimal, in letters of either case; an empty signature never is. */
  lemma SignatureIff(cfg: Config, header: string, body: Bytes)
    ensures ValidSignature(cfg, header, body) <==>
      exists sig :: header == SIGNATURE_PREFIX + sig && sig != ""
                 && Hex.Lower(sig) == Hex.Encode(cfg.hmac(body, cfg.webhookSecret))
  {
    var mac := cfg.hmac(body, cfg.webhookSecret);
    if SIGNATURE_PREFIX < header {
      var sig := header[|SIGNATURE_PREFIX|..];
      Hex.DecodesIff(sig, mac);
      assert header == SIGNATURE_PREFIX + sig;
    }
    forall sig | header == SIGNATURE_PREFIX + sig && sig != "" && Hex.Lower(sig) == Hex.Encode(mac)
      ensures ValidSignature(cfg, header, body)
    {
      assert header[|SIGNATURE_PREFIX|..] == sig;
      Hex.DecodesIff(sig, mac);
    }
  }

  /** The request bears the signature of its body. */
  ghost predicate Signed(cfg: Config, req: Request) {
    req.body.Some? && exists sig :: req.signature == "sha256=" + sig && sig != ""
                                 && Hex.Lower(sig) == Hex.Encode(cfg.hmac(req.body.value, cfg.webhookSecret))
  }

  /** For every request whatever: it is turned away as unauthorized exactly when its body was read and it does
      not bear that body's signature. */
  lemma UnauthorizedIff(cfg: Config, req: Request)
    ensures Decide(cfg, req) == Refuse(401) <==> req.body.Some? && !Signed(cfg, req)
  {
    if req.body.Some? {
      SignatureIff(cfg, req.signature, req.body.value);
    }
  }

  /** The payload an event was made from, given the two texts the event does not keep. */
  function PayloadOf(e: InsertParams, cpf: string, timestamp: string): Payload {
    Payload(e.ticketID, e.kind, cpf, e.previousStatus, e.newStatus, e.title, e.description, timestamp)
  }

  /** It is taken in exactly when it is signed and its body reads as a payload in which every required text is
      there, the kind is a status change, the CPF has eleven digits, both statuses are known and the instant can
      be read. The event then has every text of the payload, and the hash of the body. */
  lemma AcceptedIff(cfg: Config, req: Request)
    ensures Decide(cfg, req).Accept? <==>
      && Signed(cfg, req)
      && cfg.parse(req.body.value).Some?
      && var p := cfg.parse(req.body.value).value;
         && p.ticketID != "" && p.kind == "status_change" && p.title != "" && p.timestamp != ""
         && |p.cpf| == 11 && (forall i :: 0 <= i < 11 ==> p.cpf[i] in "0123456789")
         && p.previousStatus in {"open", "under_analysis", "in_progress", "completed"}
         && p.newStatus in {"open", "under_analysis", "in_progress", "completed"}
         && cfg.instant(p.timestamp).Some?
    ensures Decide(cfg, req).Accept? ==>
      var e, p := Decide(cfg, req).e, cfg.parse(req.body.value).value;
      && PayloadOf(e, p.cpf, p.timestamp) == p
      && e.citizenRef == cfg.hmac(cfg.utf8(p.cpf), cfg.cpfKey)
      && Some(e.eventTimestamp) == cfg.instant(p.timestamp)
      && e.eventHash == cfg.sha256(req.body.value)
    ensures Decide(cfg, req).Refuse? ==> Decide(cfg, req).code == 401 || Decide(cfg, req).code == 400
  {
    if req.body.Some? {
      SignatureIff(cfg, req.signature, req.body.value);
      if cfg.parse(req.body.value).Some? {
        DigitsIff(cfg.parse(req.body.value).value.cpf);
      }
    }
  }

  lemma DigitsIff(s: string)
    ensures IsCpf(s) <==> |s| == 11 && forall i :: 0 <= i < 11 ==> s[i] in "0123456789"
  {
    var digits := "0123456789";
    forall i | 0 <= i < |s|
      ensures '0' <= s[i] <= '9' <==> s[i] in digits
    {
      if '0' <= s[i] <= '9' {
        assert digits[s[i] as int - '0' as int] == s[i];
      }
    }
  }

  /** A sender who knows the secret posts `p`: its text as the body, and the signature of that text. */
  function SignedPost(cfg: Config, render: Payload -> Bytes, p: Payload): Request {
    var body := render(p);
    Request(Some(body), SIGNATURE_PREFIX + Hex.Encode(cfg.hmac(body, cfg.webhookSecret)))
  }

  /** From the sender to the event and back. If what the sender writes is what the service reads, a signed
      post is accepted exactly when its payload is valid, its instant readable and its signature not empty;
      and then the payload can be rebuilt from the event, which carries the citizen's reference for the CPF,
      the instant for its text and the hash of the very body that was signed. */
  lemma SignedPostRoundTrip(cfg: Config, render: Payload -> Bytes, p: Payload)
    requires cfg.parse(render(p)) == Some(p)
    ensures var d := Decide(cfg, SignedPost(cfg, render, p));
      && (d.Accept? <==> ValidPayload(p) && cfg.instant(p.timestamp).Some?
                         && cfg.hmac(render(p), cfg.webhookSecret) != [])
      && (d.Accept? ==>
            && PayloadOf(d.e, p.cpf, p.timestamp) == p
            && d.e.citizenRef == cfg.hmac(cfg.utf8(p.cpf), cfg.cpfKey)
            && Some(d.e.eventTimestamp) == cfg.instant(p.timestamp)
            && d.e.eventHash == cfg.sha256(render(p)))
  {
    var body, mac := render(p), cfg.hmac(render(p), cfg.webhookSecret);
    var header := SIGNATURE_PREFIX + Hex.Encode(mac);
    assert header[|SIGNATURE_PREFIX|..] == Hex.Encode(mac);
    Hex.RoundTrip(mac);
  }

  /** SHA-256 tells apart the bodies that are posted. */
  ghost predicate TellsApart(hash: Bytes -> Bytes, bodies: iset<Bytes>) {
    forall a, b :: a in bodies && b in bodies && hash(a) == hash(b) ==> a == b
  }

  /** Citizen and hash are derived from the same body, so among accepted requests the hash determines
      the whole event, the citizen included. */
  lemma HashDeterminesEvent(cfg: Config, bodies: iset<Bytes>, r1: Request, r2: Request)
    requires TellsApart(cfg.sha256, bodies)
    requires r1.body.Some? && r1.body.value in bodies && r2.body.Some? && r2.body.value in bodies
    requires Decide(cfg, r1).Accept? && Decide(cfg, r2).Accept?
    ensures Decide(cfg, r1).e.eventHash == Decide(cfg, r2).e.eventHash <==> r1.body == r2.body
    ensures Decide(cfg, r1).e.eventHash == Decide(cfg, r2).e.eventHash ==> Decide(cfg, r1).e == Decide(cfg, r2).e
  {
    assert Decide(cfg, r1).e.eventHash == cfg.sha256(r1.body.value);
    assert Decide(cfg, r2).e.eventHash == cfg.sha256(r2.body.value);
  }

  /** What the environment supplies to the serving of one event: the id and instant of the row, the two clock
      readings of an enqueue, and how the calls go. */
  datatype HandleIO = HandleIO(
    id: Uuid, at: int, insert: R.CallIO, failedAt: int, readyAt: int, enqueue: Store.Fault, publish: Store.Fault)

  /** The steps of handler `me` between its insert, if that gives `r`, and the reply. */
  function StepsAfter(me: P.Pid, r: Store.InsertResult, io: HandleIO): seq<P.Action> {
    match r
    case Created(_) => [P.HandlerPublish(me, io.publish)]
    case Duplicate => []
    case Failed => [P.HandlerStamp(me, io.failedAt, io.readyAt)] + [P.HandlerAdd(me, io.enqueue)]
  }

  /** And its steps from the insert to the reply. */
  function HandlerSteps(me: P.Pid, r: Store.InsertResult, io: HandleIO): seq<P.Action> {
    [P.HandlerInsert(me, io.id, io.at, R.FaultOf(io.insert))] + StepsAfter(me, r, io) + [P.Reply(me)]
  }

  /** The answer to an event whose insert gave `r`. */
  predicate Answers(r: Store.InsertResult, code: int) {
    && (r.Created? ==> code == 201)
    && (r.Duplicate? ==> code == 200)
    && (r.Failed? ==> code == 500)
  }

  class Handler {
    const sys: System
    const repo: R.NotificationRepo
    const cfg: Config

    constructor (sys: System, repo: R.NotificationRepo, cfg: Config)
      ensures this.sys == sys && this.repo == repo && this.cfg == cfg
    {
      this.sys, this.repo, this.cfg := sys, repo, cfg;
    }

    ghost predicate Valid()
      reads sys, sys.db, sys.queue, sys.pub
    {
      sys.Valid() && repo.db == sys.db
    }

    method Arrive(me: P.Pid, e: InsertParams)
      requires Valid() && me !in sys.procs
      modifies sys
      ensures Valid() && sys.Took(old(sys.steps), me, [P.Arrive(me, e)])
      ensures me in sys.procs && sys.procs[me] == P.HInsert(e)
    {
      ghost var before, past := sys.Abs(), sys.steps;
      sys.Goto(me, P.HInsert(e), P.Arrive(me, e), P.Arrived(e));
      Follow(past, before, P.Arrive(me, e), sys.Abs(), me);
    }

    method InsertNow(me: P.Pid, e: InsertParams, io: HandleIO) returns (r: Store.InsertResult)
      requires Valid() && me in sys.procs && sys.procs[me] == P.HInsert(e)
      modifies sys, sys.db
      ensures Valid()
      ensures sys.Took(old(sys.steps), me, [P.HandlerInsert(me, io.id, io.at, R.FaultOf(io.insert))])
      ensures me in sys.procs && sys.procs[me] == P.AfterHandlerInsert(e, r)
    {
      ghost var before, past := sys.Abs(), sys.steps;
      r := repo.Insert(e, io.id, io.at, io.insert);
      ghost var a := P.HandlerInsert(me, io.id, io.at, R.FaultOf(io.insert));
      sys.Goto(me, P.AfterHandlerInsert(e, r), a, P.HandlerInserted(e, r));
      Follow(past, before, a, sys.Abs(), me);
    }

    /** The insert, with others at work before and after it. */
    method Insert(me: P.Pid, e: InsertParams, io: HandleIO, world: nat -> seq<P.Action>)
      returns (r: Store.InsertResult)
      requires Valid() && me in sys.procs && sys.procs[me] == P.HInsert(e)
      modifies sys, sys.db, sys.queue, sys.pub
      ensures Valid()
      ensures sys.Took(old(sys.steps), me, [P.HandlerInsert(me, io.id, io.at, R.FaultOf(io.insert))])
      ensures me in sys.procs && sys.procs[me] == P.AfterHandlerInsert(e, r)
    {
      sys.AllBut(me, world(0));
      r := InsertNow(me, e, io);
      sys.AllBut(me, world(1));
    }

    method Publish(me: P.Pid, e: InsertParams, n: Notification, fault: Store.Fault)
      requires Valid() && me in sys.procs && sys.procs[me] == P.HPublish(e, n)
      modifies sys, sys.pub
      ensures Valid()
      ensures sys.Took(old(sys.steps), me, [P.HandlerPublish(me, fault)])
      ensures me in sys.procs && sys.procs[me] == P.HReply(e, 201)
    {
      ghost var before, past := sys.Abs(), sys.steps;
      var _ := sys.pub.Publish(n, fault);
      sys.Goto(me, P.HReply(e, 201), P.HandlerPublish(me, fault), P.Published(n, fault));
      Follow(past, before, P.HandlerPublish(me, fault), sys.Abs(), me);
    }

    /** The two clock readings of an enqueue. */
    method Stamp(me: P.Pid, e: InsertParams, io: HandleIO)
      requires Valid() && me in sys.procs && sys.procs[me] == P.HEnqueue(e)
      modifies sys
      ensures Valid()
      ensures sys.Took(old(sys.steps), me, [P.HandlerStamp(me, io.failedAt, io.readyAt)])
      ensures me in sys.procs && sys.procs[me] == P.HAdd(Entry(e, io.failedAt, 1), io.readyAt)
    {
      ghost var before, past := sys.Abs(), sys.steps;
      var entry := Entry(e, io.failedAt, 1);
      ghost var a := P.HandlerStamp(me, io.failedAt, io.readyAt);
      sys.Goto(me, P.HAdd(entry, io.readyAt), a, P.Stamped(entry, io.readyAt));
      Follow(past, before, a, sys.Abs(), me);
    }

    method Enqueue(me: P.Pid, e: InsertParams, io: HandleIO)
      requires Valid()
      requires me in sys.procs && sys.procs[me] == P.HAdd(Entry(e, io.failedAt, 1), io.readyAt)
      modifies sys, sys.queue
      ensures Valid()
      ensures sys.Took(old(sys.steps), me, [P.HandlerAdd(me, io.enqueue)])
      ensures me in sys.procs && sys.procs[me] == P.HReply(e, 500)
    {
      ghost var before, past := sys.Abs(), sys.steps;
      var _ := sys.queue.Enqueue(e, io.failedAt, io.readyAt, io.enqueue);
      sys.Goto(me, P.HReply(e, 500), P.HandlerAdd(me, io.enqueue), P.Enqueued(Entry(e, io.failedAt, 1), io.enqueue));
      Follow(past, before, P.HandlerAdd(me, io.enqueue), sys.Abs(), me);
    }

    method ReplyNow(me: P.Pid, e: InsertParams, code: int)
      requires Valid() && me in sys.procs && sys.procs[me] == P.HReply(e, code)
      modifies sys
      ensures Valid() && sys.Took(old(sys.steps), me, [P.Reply(me)])
      ensures me !in sys.procs && sys.log == old(sys.log) + [P.Replied(e, code)]
    {
      ghost var before, past := sys.Abs(), sys.steps;
      sys.Leave(me, P.Reply(me), P.Replied(e, code));
      Follow(past, before, P.Reply(me), sys.Abs(), me);
    }

    /** The answer, with others at work before it. */
    method Reply(me: P.Pid, e: InsertParams, code: int, others: seq<P.Action>)
      requires Valid() && me in sys.procs && sys.procs[me] == P.HReply(e, code)
      modifies sys, sys.db, sys.queue, sys.pub
      ensures Valid() && sys.Took(old(sys.steps), me, [P.Reply(me)])
      ensures me !in sys.procs && |sys.log| > 0 && sys.log[|sys.log| - 1] == P.Replied(e, code)
    {
      sys.AllBut(me, others);
      ReplyNow(me, e, code);
    }

    /** After a failed insert, with others at work between the clock readings and the call. */
    method StampAndEnqueue(e: InsertParams, io: HandleIO, me: P.Pid, others: seq<P.Action>)
      requires Valid() && me in sys.procs && sys.procs[me] == P.HEnqueue(e)
      modifies sys, sys.db, sys.queue, sys.pub
      ensures Valid()
      ensures sys.Took(old(sys.steps), me, StepsAfter(me, Store.Failed, io))
      ensures me in sys.procs && sys.procs[me] == P.HReply(e, 500)
    {
      Stamp(me, e, io);
      sys.AllBut(me, others);
      Enqueue(me, e, io);
    }

    /** What follows the insert, up to the reply. */
    method AfterInsert(e: InsertParams, n: Store.InsertResult, io: HandleIO, me: P.Pid, others: seq<P.Action>)
      returns (code: int)
      requires Valid()
      requires me in sys.procs && sys.procs[me] == P.AfterHandlerInsert(e, n)
      modifies sys, sys.db, sys.queue, sys.pub
      ensures Valid()
      ensures sys.Took(old(sys.steps), me, StepsAfter(me, n, io))
      ensures me in sys.procs && sys.procs[me] == P.HReply(e, code)
      ensures Answers(n, code)
    {
      match n {
        case Failed =>
          StampAndEnqueue(e, io, me, others);
          code := 500;
        case Duplicate =>
          code := 200;
        case Created(row) =>
          Publish(me, e, row, io.publish);
          code := 201;
      }
    }

    /** From Insert to the reply, with others at work before every call. */
    method Answer(e: InsertParams, io: HandleIO, me: P.Pid, world: nat -> seq<P.Action>)
      returns (code: int, ghost r: Store.InsertResult)
      requires Valid() && me in sys.procs && sys.procs[me] == P.HInsert(e)
      modifies sys, sys.db, sys.queue, sys.pub
      ensures Valid() && me !in sys.procs
      ensures sys.Took(old(sys.steps), me, HandlerSteps(me, r, io))
      ensures |sys.log| > 0 && sys.log[|sys.log| - 1] == P.Replied(e, code) && Answers(r, code)
    {
      var n := Insert(me, e, io, world);
      r := n;
      code := AfterInsert(e, n, io, me, world(2));
      Reply(me, e, code, world(3));
    }

    /** From arrival to the reply. */
    method Serve(e: InsertParams, io: HandleIO, me: P.Pid, world: nat -> seq<P.Action>)
      returns (code: int, ghost r: Store.InsertResult)
      requires Valid() && me !in sys.procs
      modifies sys, sys.db, sys.queue, sys.pub
      ensures Valid() && me !in sys.procs
      ensures sys.Took(old(sys.steps), me, [P.Arrive(me, e)] + HandlerSteps(me, r, io))
      ensures |sys.log| > 0 && sys.log[|sys.log| - 1] == P.Replied(e, code) && Answers(r, code)
    {
      Arrive(me, e);
      code, r := Answer(e, io, me, world);
    }

    /** A refused request changes nothing. An accepted one is, among everybody else's steps, a part of a run of the
        protocol in which handler `me` takes its event from arrival to the reply, and the answer is that reply. */
    method Handle(req: Request, io: HandleIO, me: P.Pid, world: nat -> seq<P.Action>)
      returns (code: int, ghost r: Store.InsertResult)
      requires Valid() && me !in sys.procs
      modifies sys, sys.db, sys.queue, sys.pub
      ensures Valid() && me !in sys.procs
      ensures Decide(cfg, req).Refuse? ==>
        && code == Decide(cfg, req).code && code in {400, 401}
        && sys.Abs() == old(sys.Abs()) && sys.steps == old(sys.steps)
      ensures Decide(cfg, req).Accept? ==>
        && sys.Took(old(sys.steps), me, [P.Arrive(me, Decide(cfg, req).e)] + HandlerSteps(me, r, io))
        && |sys.log| > 0 && sys.log[|sys.log| - 1] == P.Replied(Decide(cfg, req).e, code)
        && Answers(r, code) && Signed(cfg, req)
      ensures code == 401 <==> req.body.Some? && !Signed(cfg, req)
      ensures sys.steps == old(sys.steps) || code in {200, 201, 500}
    {
      UnauthorizedIff(cfg, req);
      AcceptedIff(cfg, req);
      r := Store.Failed;
      var d := Decide(cfg, req);
      if d.Refuse? {
        return d.code, r;
      }
      code, r := Serve(d.e, io, me, world);
    }
  }
}
