/**
 The relay's table of used tickets, and the cleanup task that forgets old entries from it.
 */
module TicketGate {
  import opened Words
  import opened Tickets
  import opened Text
  import opened Utf8

  /** What the relay checks a ticket against. */
  datatype Keys = Keys(mac: Mac, secret: seq<Byte>) {
    predicate Accepts(ticket: Ticket, now: I64) {
      Verify(mac, secret, ticket, now).Success?
    }
  }

  datatype Event = Present(ticket: Ticket, now: I64) | Clean(now: I64)

  type Used = map<Uuid, I64>

  predicate Admits(keys: Keys, used: Used, ticket: Ticket, now: I64) {
    keys.Accepts(ticket, now) && ticket.claims.nonce !in used
  }

  function Step(keys: Keys, used: Used, event: Event): Used {
    match event
    case Present(ticket, now) =>
      if keys.Accepts(ticket, now) then used[ticket.claims.nonce := ticket.claims.expiresAt] else used
    case Clean(now) => map nonce | nonce in used && used[nonce] >= now :: used[nonce]
  }

  class Gate {
    var used: Used

    constructor ()
      ensures used == map[]
    {
      used := map[];
    }

    /** The upgrade handler: verify, then insert and look at what was there. */
    method Upgrade(keys: Keys, ticket: Ticket, now: I64) returns (admitted: bool)
      modifies this
      ensures admitted == Admits(keys, old(used), ticket, now)
      ensures used == Step(keys, old(used), Present(ticket, now))
    {
      var verified := Verify(keys.mac, keys.secret, ticket, now);
      if verified.Failure? {
        return false;
      }
      var seen := ticket.claims.nonce in used;
      used := used[ticket.claims.nonce := ticket.claims.expiresAt];
      return !seen;
    }

    /** The cleanup task: entries that have expired go, the others stay as they are. */
    method CleanUp(keys: Keys, now: I64)
      modifies this
      ensures forall nonce :: nonce in used <==> nonce in old(used) && now <= old(used)[nonce]
      ensures forall nonce :: nonce in used ==> used[nonce] == old(used)[nonce]
      ensures used == Step(keys, old(used), Clean(now))
    {
      used := map nonce | nonce in used && used[nonce] >= now :: used[nonce];
    }
  }

  // ---- runs of the relay ----------------------------------------------------------------------

  function UsedAfter(keys: Keys, events: seq<Event>): Used {
    if events == [] then map[] else Step(keys, UsedAfter(keys, events[..|events| - 1]), events[|events| - 1])
  }

  predicate ClockForward(events: seq<Event>) {
    forall i, j :: 0 <= i < j < |events| ==> events[i].now <= events[j].now
  }

  /** The event presents a ticket that verifies. */
  predicate Valid(keys: Keys, event: Event) {
    event.Present? && keys.Accepts(event.ticket, event.now)
  }

  /** The event presents a ticket that verifies and carries this nonce. */
  predicate Uses(keys: Keys, event: Event, nonce: Uuid) {
    Valid(keys, event) && event.ticket.claims.nonce == nonce
  }

  predicate LastUse(keys: Keys, events: seq<Event>, nonce: Uuid, j: nat) {
    && j < |events| && Uses(keys, events[j], nonce)
    && forall k :: j < k < |events| ==> !Uses(keys, events[k], nonce)
  }

  /** A cleanup after `j` found the expiry of the ticket presented there in the past. */
  predicate Forgotten(events: seq<Event>, j: nat)
    requires j < |events| && events[j].Present?
  {
    exists k :: j < k < |events| && events[k].Clean? && events[j].ticket.claims.expiresAt < events[k].now
  }

  /** For any run: a nonce is held from its last use, with that ticket's expiry, until a cleanup past it. */
  lemma {:induction false} HeldExactlyWhen(keys: Keys, events: seq<Event>, nonce: Uuid)
    ensures forall j: nat :: LastUse(keys, events, nonce, j) ==>
      && (nonce in UsedAfter(keys, events) <==> !Forgotten(events, j))
      && (nonce in UsedAfter(keys, events) ==>
            UsedAfter(keys, events)[nonce] == events[j].ticket.claims.expiresAt)
    ensures (forall j :: 0 <= j < |events| ==> !Uses(keys, events[j], nonce)) ==> nonce !in UsedAfter(keys, events)
  {
    hide Keys.Accepts;
    if events != [] {
      var n := |events| - 1;
      var earlier := events[..n];
      HeldExactlyWhen(keys, earlier, nonce);
      forall j: nat | LastUse(keys, events, nonce, j)
        ensures nonce in UsedAfter(keys, events) <==> !Forgotten(events, j)
        ensures nonce in UsedAfter(keys, events) ==>
          UsedAfter(keys, events)[nonce] == events[j].ticket.claims.expiresAt
      {
        if j < n {
          LastUseBefore(keys, events, nonce, j);
        }
      }
      if forall j :: 0 <= j < |events| ==> !Uses(keys, events[j], nonce) {
        assert forall j :: 0 <= j < n ==> earlier[j] == events[j];
        assert !Uses(keys, events[n], nonce);
      }
    }
  }

  lemma LastUseBefore(keys: Keys, events: seq<Event>, nonce: Uuid, j: nat)
    requires LastUse(keys, events, nonce, j) && j < |events| - 1
    ensures LastUse(keys, events[..|events| - 1], nonce, j)
    ensures Forgotten(events, j)
            <==> || Forgotten(events[..|events| - 1], j)
                 || (events[|events| - 1].Clean? && events[j].ticket.claims.expiresAt < events[|events| - 1].now)
  {
    hide Keys.Accepts;
    var n := |events| - 1;
    var earlier := events[..n];
    assert forall k :: 0 <= k < n ==> earlier[k] == events[k];
    if Forgotten(earlier, j) {
      var k :| j < k < |earlier| && earlier[k].Clean? && earlier[j].ticket.claims.expiresAt < earlier[k].now;
      assert events[k] == earlier[k];
    }
    if Forgotten(events, j) {
      var k :| j < k < |events| && events[k].Clean? && events[j].ticket.claims.expiresAt < events[k].now;
      assert k < n ==> earlier[k] == events[k];
    }
  }

  lemma {:induction false} FindLastUse(keys: Keys, events: seq<Event>, nonce: Uuid, i: nat) returns (j: nat)
    requires i < |events| && Uses(keys, events[i], nonce)
    ensures i <= j && LastUse(keys, events, nonce, j)
    decreases |events| - i
  {
    hide Keys.Accepts;
    if k :| i < k < |events| && Uses(keys, events[k], nonce) {
      j := FindLastUse(keys, events, nonce, k);
    } else {
      j := i;
    }
  }

  /**
   For any run and any tickets: an upgrade is admitted exactly when its ticket verifies and its nonce
   was never used before, or a cleanup has found the last ticket that used it expired.
   */
  lemma AdmittedExactlyWhen(keys: Keys, events: seq<Event>, ticket: Ticket, now: I64)
    ensures Admits(keys, UsedAfter(keys, events), ticket, now)
            <==> && keys.Accepts(ticket, now)
                 && (forall j: nat :: LastUse(keys, events, ticket.claims.nonce, j) ==> Forgotten(events, j))
  {
    hide Keys.Accepts;
    var nonce := ticket.claims.nonce;
    HeldExactlyWhen(keys, events, nonce);
    if i :| 0 <= i < |events| && Uses(keys, events[i], nonce) {
      var j := FindLastUse(keys, events, nonce, i);
    }
  }

  /** The table after a ticket, another with its nonce, and a cleanup between the two expiries. */
  lemma TheTableForgetsTheLonger(keys: Keys, long: Ticket, short: Ticket, now: I64, later: I64)
    requires keys.Accepts(long, now) && keys.Accepts(short, now) && long.claims.nonce == short.claims.nonce
    requires short.claims.expiresAt < later
    ensures UsedAfter(keys, []) == map[]
    ensures UsedAfter(keys, [Present(long, now)]) == map[long.claims.nonce := long.claims.expiresAt]
    ensures UsedAfter(keys, [Present(long, now), Present(short, now), Clean(later)]) == map[]
  {
    hide Keys.Accepts;
    var run := [Present(long, now), Present(short, now), Clean(later)];
    var one := [Present(long, now)];
    assert one[..0] == [];
    assert UsedAfter(keys, one) == map[long.claims.nonce := long.claims.expiresAt];
    assert run[..2][..1] == one;
    assert UsedAfter(keys, run[..2]) == map[long.claims.nonce := short.claims.expiresAt];
  }

  /**
   The table alone does not make tickets single-use: of two tickets with one nonce, the shorter one is
   refused but its expiry replaces the longer one's, and a cleanup in between lets the longer one in again.
   */
  lemma SharedNoncesAreAdmittedTwice(keys: Keys, claims: Claims, shorter: I64, now: I64, later: I64)
    requires ValidateInputs(keys.secret, claims.room, claims.user).Success?
    requires 0 <= now <= shorter < later <= claims.expiresAt <= now + 300
    ensures var long := IssueScoped(keys.mac, keys.secret, claims).value;
            var short := IssueScoped(keys.mac, keys.secret, claims.(expiresAt := shorter)).value;
            && Admits(keys, UsedAfter(keys, []), long, now)
            && !Admits(keys, UsedAfter(keys, [Present(long, now)]), short, now)
            && Admits(keys, UsedAfter(keys, [Present(long, now), Present(short, now), Clean(later)]), long, later)
  {
    IssuedTicketsVerifyExactlyWhen(keys.mac, keys.secret, claims, now);
    IssuedTicketsVerifyExactlyWhen(keys.mac, keys.secret, claims, later);
    IssuedTicketsVerifyExactlyWhen(keys.mac, keys.secret, claims.(expiresAt := shorter), now);
    hide Tickets.Verify, UsedAfter;
    var long := IssueScoped(keys.mac, keys.secret, claims).value;
    var short := IssueScoped(keys.mac, keys.secret, claims.(expiresAt := shorter)).value;
    TheTableForgetsTheLonger(keys, long, short, now, later);
  }

  // ---- tickets from one issuer ----------------------------------------------------------------

  /** Tickets that verify and share a nonce expire together. */
  predicate NoncesNameTickets(keys: Keys, events: seq<Event>) {
    forall i, j ::
      (&& 0 <= i < j < |events| && Valid(keys, events[i]) && Valid(keys, events[j])
       && events[i].ticket.claims.nonce == events[j].ticket.claims.nonce)
      ==> events[i].ticket.claims.expiresAt == events[j].ticket.claims.expiresAt
  }

  /**
   Against the full history: a ticket is admitted exactly when it verifies and its nonce never
   came with a verifying ticket before, although the table forgets.
   */
  lemma AdmissionIsFirstUse(keys: Keys, events: seq<Event>, i: nat)
    requires ClockForward(events) && NoncesNameTickets(keys, events)
    requires i < |events| && events[i].Present?
    ensures Admits(keys, UsedAfter(keys, events[..i]), events[i].ticket, events[i].now)
            <==> && Valid(keys, events[i])
                 && (forall j :: 0 <= j < i ==> !Uses(keys, events[j], events[i].ticket.claims.nonce))
  {
    hide Keys.Accepts;
    var earlier, nonce := events[..i], events[i].ticket.claims.nonce;
    assert forall j :: 0 <= j < i ==> earlier[j] == events[j];
    AdmittedExactlyWhen(keys, earlier, events[i].ticket, events[i].now);
    if Valid(keys, events[i]) {
      AcceptedTicketsAreCurrent(keys, events[i].ticket, events[i].now);
      if u :| 0 <= u < i && Uses(keys, events[u], nonce) {
        var j := FindLastUse(keys, earlier, nonce, u);
        assert Uses(keys, events[j], nonce);
        assert forall k :: j < k < i ==> events[k].now <= events[i].now <= events[j].ticket.claims.expiresAt;
        assert !Forgotten(earlier, j);
      } else {
        assert forall j: nat :: !LastUse(keys, earlier, nonce, j);
      }
    }
  }

  lemma AcceptedTicketsAreCurrent(keys: Keys, ticket: Ticket, now: I64)
    requires keys.Accepts(ticket, now)
    ensures now <= ticket.claims.expiresAt
  {
  }

  /** Each nonce authorises at most one upgrade in a run. */
  lemma NoncesAuthoriseOnce(keys: Keys, events: seq<Event>, i: nat, j: nat)
    requires ClockForward(events) && NoncesNameTickets(keys, events)
    requires i < |events| && events[i].Present? && j < |events| && events[j].Present?
    requires Admits(keys, UsedAfter(keys, events[..i]), events[i].ticket, events[i].now)
    requires Admits(keys, UsedAfter(keys, events[..j]), events[j].ticket, events[j].now)
    requires events[i].ticket.claims.nonce == events[j].ticket.claims.nonce
    ensures i == j
  {
    hide Keys.Accepts;
    AdmissionIsFirstUse(keys, events, i);
    AdmissionIsFirstUse(keys, events, j);
  }

  ghost predicate CollisionFree(keys: Keys) {
    forall x, y :: keys.mac(keys.secret, x) == keys.mac(keys.secret, y) ==> x == y
  }

  /** The issuer signed these claims, drawing a fresh nonce for each. */
  predicate FreshlyIssued(keys: Keys, issued: seq<Claims>) {
    && (forall a :: 0 <= a < |issued| ==> IssueScoped(keys.mac, keys.secret, issued[a]).Success?)
    && (forall a, b :: 0 <= a < b < |issued| ==> issued[a].nonce != issued[b].nonce)
  }

  /** A hash the issuer computed for one of its claims, however the ticket spells it. */
  predicate SignedBy(keys: Keys, issued: seq<Claims>, signature: string) {
    exists a :: 0 <= a < |issued| && Signs(keys, issued[a], signature)
  }

  predicate Signs(keys: Keys, claims: Claims, signature: string) {
    var issued := IssueScoped(keys.mac, keys.secret, claims);
    issued.Success? && HexDecode(signature) == HexDecode(issued.value.signature)
  }

  /** Nobody else can make a signature that verifies. */
  predicate OnlyTheIssuerSigns(keys: Keys, issued: seq<Claims>, events: seq<Event>) {
    forall i :: 0 <= i < |events| && Valid(keys, events[i]) ==> SignedBy(keys, issued, events[i].ticket.signature)
  }

  lemma VerifyingTicketsWereIssued(keys: Keys, issued: seq<Claims>, ticket: Ticket, now: I64)
    requires CollisionFree(keys) && SignedBy(keys, issued, ticket.signature) && keys.Accepts(ticket, now)
    ensures ticket.claims in issued
  {
    hide Tickets.Verify, Tickets.IssueScoped, Utf8.HexDecode;
    var a :| 0 <= a < |issued| && Signs(keys, issued[a], ticket.signature);
    TamperingIsRejected(keys.mac, keys.secret, issued[a], ticket, now);
  }

  lemma IssuedNoncesNameTickets(keys: Keys, issued: seq<Claims>, events: seq<Event>)
    requires CollisionFree(keys) && FreshlyIssued(keys, issued) && OnlyTheIssuerSigns(keys, issued, events)
    ensures NoncesNameTickets(keys, events)
  {
    hide Keys.Accepts, SignedBy, CollisionFree;
    forall i, j | && 0 <= i < j < |events| && Valid(keys, events[i]) && Valid(keys, events[j])
                  && events[i].ticket.claims.nonce == events[j].ticket.claims.nonce
      ensures events[i].ticket.claims.expiresAt == events[j].ticket.claims.expiresAt
    {
      VerifyingTicketsWereIssued(keys, issued, events[i].ticket, events[i].now);
      VerifyingTicketsWereIssued(keys, issued, events[j].ticket, events[j].now);
    }
  }

  /** Issued tickets are single-use: in any run each issued set of claims authorises at most one upgrade, and no others do. */
  lemma IssuedTicketsAuthoriseOnce(keys: Keys, issued: seq<Claims>, events: seq<Event>, i: nat, j: nat)
    requires CollisionFree(keys) && FreshlyIssued(keys, issued) && OnlyTheIssuerSigns(keys, issued, events)
    requires ClockForward(events)
    requires i < |events| && events[i].Present? && j < |events| && events[j].Present?
    requires Admits(keys, UsedAfter(keys, events[..i]), events[i].ticket, events[i].now)
    requires Admits(keys, UsedAfter(keys, events[..j]), events[j].ticket, events[j].now)
    ensures events[i].ticket.claims in issued
    ensures events[i].ticket.claims.nonce == events[j].ticket.claims.nonce ==> i == j
  {
    hide Keys.Accepts, SignedBy, CollisionFree, FreshlyIssued;
    VerifyingTicketsWereIssued(keys, issued, events[i].ticket, events[i].now);
    IssuedNoncesNameTickets(keys, issued, events);
    if events[i].ticket.claims.nonce == events[j].ticket.claims.nonce {
      NoncesAuthoriseOnce(keys, events, i, j);
    }
  }
}
