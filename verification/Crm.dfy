/**
 CRM sync: every pending change is folded into customer memory. The inbox is
 never drained, so each sync replays it from the start; a refused payload is
 counted and skipped, one that breaks the normalizer ends the run. The time of the last sync is left
 out of the records.
 */
module Crm {
  import opened Basics
  import opened KeyedLog
  import opened Normalizer
  import opened Text

  datatype Kind = ContactKind | DealKind

  /** The announcement of one synced record. */
  datatype RecordSynced = RecordSynced(kind: Kind, action: Action, recordId: string)

  datatype Profile = Profile(
    externalId: string, name: string, phone: string, email: string,
    restaurantId: Option<string>, tags: seq<string>)

  datatype Record = Record(profile: Profile, deals: seq<Deal>)

  /** Records by id, and the order in which ids first appeared. */
  datatype Memory = Memory(order: seq<string>, records: map<string, Record>)

  const NOBODY: Memory := Memory([], map[])

  function ProfileOf(c: Contact): Profile {
    Profile(c.externalId, c.name, c.phone, c.email, c.restaurantId, c.tags)
  }

  /** A deal without a contact gets an owner of its own. */
  function OwnerOf(d: Deal): string {
    if d.contactExternalId.Some? && d.contactExternalId.value != "" then d.contactExternalId.value
    else "orphan-" + d.externalId
  }

  function Stranger(d: Deal): Profile {
    Profile(OwnerOf(d), "Unknown contact", "", "", d.restaurantId, [])
  }

  function WithoutDeal(deals: seq<Deal>, id: string): seq<Deal> {
    if deals == [] then []
    else
      WithoutDeal(deals[..|deals| - 1], id)
      + if deals[|deals| - 1].externalId == id then [] else [deals[|deals| - 1]]
  }

  function Attach(deals: seq<Deal>, deal: Deal): seq<Deal> {
    WithoutDeal(deals, deal.externalId) + [deal]
  }

  function Stored(m: Memory, id: string, record: Record): Memory {
    Memory(if id in m.records then m.order else m.order + [id], m.records[id := record])
  }

  function Upserted(m: Memory, c: Contact): Memory {
    Stored(m, c.externalId,
           Record(ProfileOf(c), if c.externalId in m.records then m.records[c.externalId].deals else []))
  }

  function Attached(m: Memory, d: Deal): Memory {
    var owner := if OwnerOf(d) in m.records then m.records[OwnerOf(d)] else Record(Stranger(d), []);
    Stored(m, OwnerOf(d), owner.(deals := Attach(owner.deals, d)))
  }

  function Applied(m: Memory, change: Change): Memory {
    match change
    case ContactChange(c, _) => Upserted(m, c)
    case DealChange(d, _) => Attached(m, d)
    case Rejected(_) => m
    case Broken(_) => m
  }

  function Synced(m: Memory, inbox: seq<Change>): Memory {
    if inbox == [] then m else Applied(Synced(m, inbox[..|inbox| - 1]), inbox[|inbox| - 1])
  }

  class CustomerMemory {
    var order: seq<string>
    var records: map<string, Record>

    constructor ()
      ensures State() == NOBODY
    {
      order, records := [], map[];
    }

    function State(): Memory
      reads this
    {
      Memory(order, records)
    }

    method Write(id: string, record: Record)
      modifies this
      ensures State() == Stored(old(State()), id, record)
    {
      if id !in records {
        order := order + [id];
      }
      records := records[id := record];
    }

    method UpsertContact(contact: Contact)
      modifies this
      ensures State() == Upserted(old(State()), contact)
    {
      var deals := if contact.externalId in records then records[contact.externalId].deals else [];
      Write(contact.externalId, Record(ProfileOf(contact), deals));
    }

    method AttachDeal(deal: Deal)
      modifies this
      ensures State() == Attached(old(State()), deal)
    {
      var ownerId := OwnerOf(deal);
      var owner := if ownerId in records then records[ownerId] else Record(Stranger(deal), []);
      var deals: seq<Deal> := [];
      for i := 0 to |owner.deals|
        invariant State() == old(State())
        invariant deals == WithoutDeal(owner.deals[..i], deal.externalId)
      {
        assert owner.deals[..i + 1][..i] == owner.deals[..i];
        if owner.deals[i].externalId != deal.externalId {
          deals := deals + [owner.deals[i]];
        }
      }
      assert owner.deals[..|owner.deals|] == owner.deals;
      Write(ownerId, owner.(deals := deals + [deal]));
    }

    /** The first record, in order of appearance, whose phone ends in the same digits. */
    method FindByPhone(phone: string) returns (found: Option<Record>)
      ensures FirstAnswer(State(), DigitsTail(phone), found)
      ensures found == FoundByPhone(State(), phone)
    {
      var needle := DigitsTail(phone);
      found := None;
      if needle != "" {
        for i := 0 to |order|
          invariant forall j | 0 <= j < i :: !AnswersAt(State(), j, needle)
        {
          if order[i] in records {
            var record := records[order[i]];
            if record.profile.phone != "" && DigitsTail(record.profile.phone) == needle {
              found := Some(record);
              assert AnswersFirst(State(), i, needle);
              break;
            }
          }
        }
      }
      FoundFromIsFirst(State(), needle, 0);
      FirstAnswerUnique(State(), needle, found, FoundByPhone(State(), phone));
    }
  }

  predicate Answers(r: Record, needle: string) {
    needle != "" && r.profile.phone != "" && DigitsTail(r.profile.phone) == needle
  }

  predicate AnswersAt(m: Memory, i: nat, needle: string)
    requires i < |m.order|
  {
    m.order[i] in m.records && Answers(m.records[m.order[i]], needle)
  }

  /** The record that appeared first among those answering to the digits, if any does. */
  ghost predicate FirstAnswer(m: Memory, needle: string, found: Option<Record>) {
    match found
    case None => forall i | 0 <= i < |m.order| :: !AnswersAt(m, i, needle)
    case Some(r) => exists i: nat :: AnswersFirst(m, i, needle) && r == m.records[m.order[i]]
  }

  ghost predicate AnswersFirst(m: Memory, i: nat, needle: string) {
    && i < |m.order| && AnswersAt(m, i, needle)
    && forall j | 0 <= j < i :: !AnswersAt(m, j, needle)
  }

  lemma FirstAnswerUnique(m: Memory, needle: string, a: Option<Record>, b: Option<Record>)
    requires FirstAnswer(m, needle, a) && FirstAnswer(m, needle, b)
    ensures a == b
  {
    if a.Some? && b.Some? {
      var i: nat :| AnswersFirst(m, i, needle) && a.value == m.records[m.order[i]];
      var j: nat :| AnswersFirst(m, j, needle) && b.value == m.records[m.order[j]];
      assert i == j;
    }
  }

  function FoundByPhone(m: Memory, phone: string): Option<Record> {
    FoundFrom(m, DigitsTail(phone), 0)
  }

  function FoundFrom(m: Memory, needle: string, i: nat): Option<Record>
    requires i <= |m.order|
    decreases |m.order| - i
  {
    if i == |m.order| then None
    else if AnswersAt(m, i, needle) then Some(m.records[m.order[i]])
    else FoundFrom(m, needle, i + 1)
  }

  lemma {:induction false} FoundFromIsFirst(m: Memory, needle: string, i: nat)
    requires i <= |m.order| && forall j | 0 <= j < i :: !AnswersAt(m, j, needle)
    ensures FirstAnswer(m, needle, FoundFrom(m, needle, i))
    decreases |m.order| - i
  {
    hide AnswersAt;
    if i < |m.order| {
      if AnswersAt(m, i, needle) {
        assert AnswersFirst(m, i, needle);
      } else {
        FoundFromIsFirst(m, needle, i + 1);
      }
    }
  }

  function Digits(s: string): string {
    if s == "" then ""
    else Digits(s[..|s| - 1]) + if '0' <= s[|s| - 1] <= '9' then [s[|s| - 1]] else ""
  }

  function DigitsTail(s: string): string {
    var digits := Digits(s);
    if |digits| >= 10 then digits[|digits| - 10..] else digits
  }

  lemma {:induction false} DigitsAppend(a: string, b: string)
    ensures Digits(a + b) == Digits(a) + Digits(b)
  {
    if b == "" {
      assert a + b == a;
    } else {
      assert (a + b)[..|a + b| - 1] == a + b[..|b| - 1];
      DigitsAppend(a, b[..|b| - 1]);
    }
  }

  /** A full number matches whatever country code or text precedes it. */
  lemma TailIgnoresPrefix(prefix: string, number: string)
    requires |Digits(number)| >= 10
    ensures DigitsTail(prefix + number) == DigitsTail(number)
  {
    DigitsAppend(prefix, number);
  }

  datatype SyncReport = SyncReport(contacts: nat, deals: nat, failed: nat, errors: seq<string>)

  function CountContacts(inbox: seq<Change>): nat {
    if inbox == [] then 0
    else CountContacts(inbox[..|inbox| - 1]) + if inbox[|inbox| - 1].ContactChange? then 1 else 0
  }

  function CountDeals(inbox: seq<Change>): nat {
    if inbox == [] then 0
    else CountDeals(inbox[..|inbox| - 1]) + if inbox[|inbox| - 1].DealChange? then 1 else 0
  }

  function Errors(inbox: seq<Change>): seq<string> {
    if inbox == [] then []
    else Errors(inbox[..|inbox| - 1]) + if inbox[|inbox| - 1].Rejected? then [inbox[|inbox| - 1].error] else []
  }

  /** The announcements of an inbox, in order. */
  function Announced(inbox: seq<Change>): seq<RecordSynced> {
    if inbox == [] then []
    else
      Announced(inbox[..|inbox| - 1])
      + Announcement(inbox[|inbox| - 1])
  }

  function Announcement(change: Change): seq<RecordSynced> {
    match change
    case ContactChange(c, action) => [RecordSynced(ContactKind, action, c.externalId)]
    case DealChange(d, action) => [RecordSynced(DealKind, action, d.externalId)]
    case Rejected(_) => []
    case Broken(_) => []
  }

  /** Exactly the changes that got through are announced, each under its kind, action and id. */
  lemma {:induction false} AnnouncedIff(inbox: seq<Change>, r: RecordSynced)
    ensures r in Announced(inbox)
            <==> || (r.kind == ContactKind
                     && exists c :: ContactChange(c, r.action) in inbox && c.externalId == r.recordId)
                 || (r.kind == DealKind
                     && exists d :: DealChange(d, r.action) in inbox && d.externalId == r.recordId)
    ensures |Announced(inbox)| == CountContacts(inbox) + CountDeals(inbox)
  {
    if inbox != [] {
      var n := |inbox| - 1;
      AnnouncedIff(inbox[..n], r);
      assert inbox == inbox[..n] + [inbox[n]];
    }
  }

  /** What a run counts, inbox by inbox and change by change. */
  lemma TalliesAddUp(a: seq<Change>, b: seq<Change>, change: Change)
    ensures CountContacts(a + b) == CountContacts(a) + CountContacts(b)
    ensures CountDeals(a + b) == CountDeals(a) + CountDeals(b)
    ensures Errors(a + b) == Errors(a) + Errors(b)
    ensures CountContacts([change]) == (if change.ContactChange? then 1 else 0)
    ensures CountDeals([change]) == (if change.DealChange? then 1 else 0)
    ensures Errors([change]) == if change.Rejected? then [change.error] else []
  {
    assert [change][..0] == [];
    CountsAddUp(a, b);
    ErrorsAddUp(a, b);
  }

  lemma {:induction false} ErrorsAddUp(a: seq<Change>, b: seq<Change>)
    ensures Errors(a + b) == Errors(a) + Errors(b)
    decreases |b|
  {
    if b == [] {
      assert a + b == a;
    } else {
      ErrorsAddUp(a, b[..|b| - 1]);
      assert (a + b)[..|a + b| - 1] == a + b[..|b| - 1];
    }
  }

  lemma {:induction false} CountsAddUp(a: seq<Change>, b: seq<Change>)
    ensures CountContacts(a + b) == CountContacts(a) + CountContacts(b)
    ensures CountDeals(a + b) == CountDeals(a) + CountDeals(b)
    decreases |b|
  {
    if b == [] {
      assert a + b == a;
    } else {
      CountsAddUp(a, b[..|b| - 1]);
      assert (a + b)[..|a + b| - 1] == a + b[..|b| - 1];
    }
  }

  /** How the payloads of one vendor become changes. */
  type Vendor = Field -> Change

  function Bitrix(conv: Conversions): Vendor {
    payload => Normalized(conv, payload)
  }

  /** What normalizing gives for each payload. */
  function Changes(normalize: Vendor, inbox: seq<Field>): (changes: seq<Change>)
    ensures |changes| == |inbox| && forall i | 0 <= i < |inbox| :: changes[i] == normalize(inbox[i])
  {
    seq(|inbox|, i requires 0 <= i < |inbox| => normalize(inbox[i]))
  }

  /** How many changes come before the first broken one. */
  function Intact(inbox: seq<Change>): (n: nat)
    ensures n <= |inbox|
    ensures forall i | 0 <= i < n :: !inbox[i].Broken?
    ensures n < |inbox| ==> inbox[n].Broken?
  {
    if inbox == [] || inbox[0].Broken? then 0 else 1 + Intact(inbox[1..])
  }

  /** What a run gets to process. */
  function Processed(inbox: seq<Change>): seq<Change> {
    inbox[..Intact(inbox)]
  }

  ghost predicate Tallied(inbox: seq<Change>, contacts: nat, deals: nat, failed: nat, errors: seq<string>) {
    && contacts == CountContacts(inbox) && deals == CountDeals(inbox)
    && errors == Errors(inbox) && failed == |errors|
    && contacts + deals + failed == |inbox|
  }

  lemma NothingYet(m: Memory, announced: seq<RecordSynced>, changes: seq<Change>)
    ensures Synced(m, changes[..0]) == m && announced + Announced(changes[..0]) == announced
    ensures Tallied(changes[..0], 0, 0, 0, [])
  {
    assert changes[..0] == [];
  }

  lemma OneMore(m: Memory, inbox: seq<Change>, i: nat)
    requires i < |inbox|
    ensures Synced(m, inbox[..i + 1]) == Applied(Synced(m, inbox[..i]), inbox[i])
    ensures Announced(inbox[..i + 1]) == Announced(inbox[..i]) + Announcement(inbox[i])
  {
    assert inbox[..i + 1][..i] == inbox[..i];
  }

  lemma OneMoreTallied(inbox: seq<Change>, i: nat, contacts: nat, deals: nat, failed: nat, errors: seq<string>)
    requires i < |inbox| && Tallied(inbox[..i], contacts, deals, failed, errors)
    ensures match inbox[i]
            case ContactChange(_, _) => Tallied(inbox[..i + 1], contacts + 1, deals, failed, errors)
            case DealChange(_, _) => Tallied(inbox[..i + 1], contacts, deals + 1, failed, errors)
            case Rejected(error) => Tallied(inbox[..i + 1], contacts, deals, failed + 1, errors + [error])
            case Broken(_) => true
  {
    assert inbox[..i + 1][..i] == inbox[..i];
  }

  class CrmSyncService {
    const normalizer: Vendor
    const customerMemory: CustomerMemory
    var published: seq<RecordSynced>

    constructor (normalizer: Vendor, customerMemory: CustomerMemory)
      ensures this.normalizer == normalizer && this.customerMemory == customerMemory && published == []
    {
      this.normalizer, this.customerMemory, published := normalizer, customerMemory, [];
    }

    /** One change lands in memory and is announced. */
    method Land(change: Change)
      modifies this, customerMemory
      ensures customerMemory.State() == Applied(old(customerMemory.State()), change)
      ensures published == old(published) + Announcement(change)
    {
      match change {
        case ContactChange(contact, action) =>
          customerMemory.UpsertContact(contact);
          published := published + [RecordSynced(ContactKind, action, contact.externalId)];
        case DealChange(deal, action) =>
          customerMemory.AttachDeal(deal);
          published := published + [RecordSynced(DealKind, action, deal.externalId)];
        case Rejected(_) =>
        case Broken(_) =>
      }
    }

    /** Pending payloads are processed in order, up to the first that breaks, whose fault is raised. */
    method Sync(inbox: seq<Field>) returns (result: Result<SyncReport, Fault>)
      modifies this, customerMemory
      ensures var changes := Changes(normalizer, inbox);
              && customerMemory.State() == Synced(old(customerMemory.State()), Processed(changes))
              && published == old(published) + Announced(Processed(changes))
              && (result.Ok? <==> forall payload | payload in inbox :: !normalizer(payload).Broken?)
              && match result
                 case Err(fault) => Intact(changes) < |changes| && Broken(fault) == changes[Intact(changes)]
                 case Ok(report) =>
                   && Processed(changes) == changes
                   && report.contacts == CountContacts(changes) && report.deals == CountDeals(changes)
                   && report.errors == Errors(changes) && report.failed == |report.errors|
                   && report.contacts + report.deals + report.failed == |inbox|
    {
      var contacts, deals, failed := 0, 0, 0;
      var errors: seq<string> := [];
      ghost var changes := Changes(normalizer, inbox);
      ghost var memory, announced := customerMemory.State(), published;
      hide Synced, Announced, CountContacts, CountDeals, Errors, Upserted, Attached, Intact;
      NothingYet(memory, announced, changes);
      for i := 0 to |inbox|
        invariant i <= Intact(changes)
        invariant customerMemory.State() == Synced(memory, changes[..i])
        invariant published == announced + Announced(changes[..i])
        invariant Tallied(changes[..i], contacts, deals, failed, errors)
      {
        var change := normalizer(inbox[i]);
        PastIntact(changes, i);
        if change.Broken? {
          IntactIff(normalizer, inbox);
          return Err(change.fault);
        }
        OneMore(memory, changes, i);
        OneMoreTallied(changes, i, contacts, deals, failed, errors);
        Regroup(announced, Announced(changes[..i]), Announcement(changes[i]));
        if change.Rejected? {
          failed := failed + 1;
          errors := errors + [change.error];
          continue;
        }
        Land(change);
        if change.ContactChange? {
          contacts := contacts + 1;
        } else {
          deals := deals + 1;
        }
      }
      IntactIff(normalizer, inbox);
      assert changes[..|inbox|] == changes;
      result := Ok(SyncReport(contacts, deals, failed, errors));
    }
  }

  lemma IntactIff(normalize: Vendor, inbox: seq<Field>)
    ensures Intact(Changes(normalize, inbox)) == |inbox|
            <==> forall payload | payload in inbox :: !normalize(payload).Broken?
  {
    var changes := Changes(normalize, inbox);
    if Intact(changes) < |inbox| {
      assert inbox[Intact(changes)] in inbox;
    }
  }

  /** A sync of the vendor's inbox completes exactly if no payload in it has fields that break it. */
  lemma SyncCompletesIff(conv: Conversions, inbox: seq<Field>)
    ensures Processed(Changes(Bitrix(conv), inbox)) == Changes(Bitrix(conv), inbox)
            <==> forall payload | payload in inbox :: !Breaks(conv, payload)
  {
    IntactIff(Bitrix(conv), inbox);
    forall payload ensures Bitrix(conv)(payload).Broken? <==> Breaks(conv, payload) {
      BrokenIff(conv, payload);
    }
  }

  /** A position up to which all is intact is the first broken one, or lies before it. */
  lemma PastIntact(changes: seq<Change>, i: nat)
    requires i <= Intact(changes) && i < |changes|
    ensures changes[i].Broken? <==> i == Intact(changes)
  {
  }

  /** Customer memory after one run after another, each over what the inbox held then. */
  function MemoryAfter(normalize: Vendor, m: Memory, inboxes: seq<seq<Field>>): Memory {
    if inboxes == [] then m
    else
      var n := |inboxes| - 1;
      Synced(MemoryAfter(normalize, m, inboxes[..n]), Processed(Changes(normalize, inboxes[n])))
  }

  lemma ProcessedUpTo(normalize: Vendor, before: seq<Field>, breaking: Field, after: seq<Field>)
    requires normalize(breaking).Broken? && forall payload | payload in before :: !normalize(payload).Broken?
    ensures Processed(Changes(normalize, before + [breaking] + after)) == Changes(normalize, before)
  {
    var inbox := before + [breaking] + after;
    assert inbox[|before|] == breaking;
    forall i | 0 <= i < |before| ensures !Changes(normalize, inbox)[i].Broken? {
      assert inbox[i] == before[i] && before[i] in before;
    }
    assert Intact(Changes(normalize, inbox)) == |before|;
  }

  /** The inbox still starts with these payloads. */
  ghost predicate Starts(inbox: seq<Field>, before: seq<Field>, breaking: Field) {
    before + [breaking] <= inbox
  }

  /**
   One payload that breaks ends this run and every later one: however the inbox
   grows behind it and however often it is synced, memory stays what the payloads
   before it made of it.
   */
  lemma BrokenPayloadBlocks(conv: Conversions, m: Memory, inboxes: seq<seq<Field>>, before: seq<Field>,
                            breaking: Field)
    requires Breaks(conv, breaking) && forall payload | payload in before :: !Breaks(conv, payload)
    requires inboxes != [] && forall inbox | inbox in inboxes :: Starts(inbox, before, breaking)
    ensures MemoryAfter(Bitrix(conv), m, inboxes) == Synced(m, Changes(Bitrix(conv), before))
  {
    BrokenIff(conv, breaking);
    forall payload | payload in before ensures !Bitrix(conv)(payload).Broken? {
      BrokenIff(conv, payload);
    }
    BlockedForGood(Bitrix(conv), m, inboxes, before, breaking);
  }

  lemma {:induction false} BlockedForGood(normalize: Vendor, m: Memory, inboxes: seq<seq<Field>>,
                                          before: seq<Field>, breaking: Field)
    requires normalize(breaking).Broken? && forall payload | payload in before :: !normalize(payload).Broken?
    requires inboxes != [] && forall inbox | inbox in inboxes :: Starts(inbox, before, breaking)
    ensures MemoryAfter(normalize, m, inboxes) == Synced(m, Changes(normalize, before))
  {
    var n := |inboxes| - 1;
    assert Starts(inboxes[n], before, breaking);
    var after := inboxes[n][|before| + 1..];
    assert inboxes[n] == before + [breaking] + after;
    ProcessedUpTo(normalize, before, breaking, after);
    if n > 0 {
      BlockedForGood(normalize, m, inboxes[..n], before, breaking);
      SyncIsIdempotent(m, Changes(normalize, before));
    } else {
      assert MemoryAfter(normalize, m, inboxes[..0]) == m;
    }
  }

  // ----------------------------------------------------- one customer at a time

  predicate Concerns(change: Change, id: string) {
    match change
    case ContactChange(c, _) => c.externalId == id
    case DealChange(d, _) => OwnerOf(d) == id
    case Rejected(_) => false
    case Broken(_) => false
  }

  /** What an inbox makes of one customer's profile. */
  function ProfileAfter(id: string, profile: Option<Profile>, inbox: seq<Change>): Option<Profile> {
    if inbox == [] then profile
    else
      var before := ProfileAfter(id, profile, inbox[..|inbox| - 1]);
      var change := inbox[|inbox| - 1];
      if !Concerns(change, id) then before
      else if change.ContactChange? then Some(ProfileOf(change.contact))
      else if before.Some? then before
      else Some(Stranger(change.deal))
  }

  /** The deals of an inbox that belong to one customer, each keyed by its id. */
  function DealsFor(id: string, inbox: seq<Change>): seq<seq<(string, Deal)>> {
    if inbox == [] then []
    else
      var change := inbox[|inbox| - 1];
      DealsFor(id, inbox[..|inbox| - 1])
      + if Brings(change, id) then [[(change.deal.externalId, change.deal)]] else []
  }

  function Keyed(deals: seq<Deal>): (keyed: seq<(string, Deal)>)
    ensures |keyed| == |deals|
    ensures forall i | 0 <= i < |deals| :: keyed[i] == (deals[i].externalId, deals[i])
  {
    seq(|deals|, i requires 0 <= i < |deals| => (deals[i].externalId, deals[i]))
  }

  function Lookup(m: Memory, id: string): Option<Record> {
    if id in m.records then Some(m.records[id]) else None
  }

  function ProfileIn(m: Memory, id: string): Option<Profile> {
    if id in m.records then Some(m.records[id].profile) else None
  }

  function DealsIn(m: Memory, id: string): seq<Deal> {
    if id in m.records then m.records[id].deals else []
  }

  lemma {:induction false} WithoutDealKeyed(deals: seq<Deal>, id: string)
    ensures Keyed(WithoutDeal(deals, id)) == Without(Keyed(deals), {id})
  {
    if deals != [] {
      var n := |deals| - 1;
      WithoutDealKeyed(deals[..n], id);
      assert Keyed(deals)[..n] == Keyed(deals[..n]);
    }
  }

  lemma AttachIsPut(deals: seq<Deal>, d: Deal)
    ensures Keyed(Attach(deals, d)) == Put(Keyed(deals), [(d.externalId, d)])
  {
    var batch := [(d.externalId, d)];
    assert Keys(batch) == {d.externalId} by {
      assert batch[0].0 in Keys(batch);
    }
    WithoutDealKeyed(deals, d.externalId);
  }

  lemma {:induction false} SyncedProfile(m: Memory, inbox: seq<Change>, id: string)
    ensures ProfileIn(Synced(m, inbox), id) == ProfileAfter(id, ProfileIn(m, id), inbox)
  {
    if inbox != [] {
      SyncedProfile(m, inbox[..|inbox| - 1], id);
    }
  }

  lemma {:induction false} SyncedDeals(m: Memory, inbox: seq<Change>, id: string)
    ensures Keyed(DealsIn(Synced(m, inbox), id)) == PutAll(Keyed(DealsIn(m, id)), DealsFor(id, inbox))
  {
    if inbox != [] {
      var n := |inbox| - 1;
      SyncedDeals(m, inbox[..n], id);
      AppliedDeals(Synced(m, inbox[..n]), inbox[n], id);
      if Brings(inbox[n], id) {
        OneMorePut(Keyed(DealsIn(m, id)), DealsFor(id, inbox[..n]), [(inbox[n].deal.externalId, inbox[n].deal)]);
      } else {
        assert DealsFor(id, inbox) == DealsFor(id, inbox[..n]);
      }
    }
  }

  /** A deal for this customer. */
  predicate Brings(change: Change, id: string) {
    change.DealChange? && OwnerOf(change.deal) == id
  }

  lemma AppliedDeals(m: Memory, change: Change, id: string)
    ensures Keyed(DealsIn(Applied(m, change), id))
            == if Brings(change, id) then Put(Keyed(DealsIn(m, id)), [(change.deal.externalId, change.deal)])
               else Keyed(DealsIn(m, id))
  {
    if Brings(change, id) {
      AttachIsPut(DealsIn(m, id), change.deal);
    }
  }

  lemma OneMorePut<K, V>(xs: seq<(K, V)>, batches: seq<seq<(K, V)>>, batch: seq<(K, V)>)
    ensures PutAll(xs, batches + [batch]) == Put(PutAll(xs, batches), batch)
  {
    assert (batches + [batch])[..|batches|] == batches;
  }

  // ------------------------------------------------------------ main theorems

  /** The last contact change of an inbox for a customer. */
  function LastContact(id: string, inbox: seq<Change>): Option<Contact> {
    if inbox == [] then None
    else
      var change := inbox[|inbox| - 1];
      if change.ContactChange? && change.contact.externalId == id then Some(change.contact)
      else LastContact(id, inbox[..|inbox| - 1])
  }

  /** The first deal of an inbox that names a customer nobody knew. */
  function FirstDeal(id: string, inbox: seq<Change>): Option<Deal> {
    if inbox == [] then None
    else
      var before := FirstDeal(id, inbox[..|inbox| - 1]);
      var change := inbox[|inbox| - 1];
      if before == None && change.DealChange? && OwnerOf(change.deal) == id then Some(change.deal) else before
  }

  /**
   A customer's profile after a sync, in closed form: the last contact change
   wins; without one the old profile stays; a customer known only from deals is a
   stranger described by the first of them.
   */
  lemma {:induction false} ProfileClosedForm(id: string, profile: Option<Profile>, inbox: seq<Change>)
    ensures ProfileAfter(id, profile, inbox) ==
              match LastContact(id, inbox)
              case Some(c) => Some(ProfileOf(c))
              case None =>
                if profile.Some? then profile
                else match FirstDeal(id, inbox)
                     case Some(d) => Some(Stranger(d))
                     case None => None
  {
    if inbox != [] {
      ProfileClosedForm(id, profile, inbox[..|inbox| - 1]);
    }
  }

  /**
   A customer's deals after a sync: the old ones the inbox does not mention, in
   their old order, then the inbox's own deals, each at its last occurrence.
   */
  lemma DealsClosedForm(m: Memory, inbox: seq<Change>, id: string)
    ensures Keyed(DealsIn(Synced(m, inbox), id))
            == Without(Keyed(DealsIn(m, id)), AllKeys(DealsFor(id, inbox)))
               + LastOccurrences(DealsFor(id, inbox))
  {
    SyncedDeals(m, inbox, id);
    PutAllClosedForm(Keyed(DealsIn(m, id)), DealsFor(id, inbox));
    PutAllKeepsLast(DealsFor(id, inbox));
  }

  ghost predicate DealsDistinct(deals: seq<Deal>) {
    forall i, j | 0 <= i < j < |deals| :: deals[i].externalId != deals[j].externalId
  }

  lemma {:induction false} WithoutDealFacts(deals: seq<Deal>, id: string)
    requires DealsDistinct(deals)
    ensures DealsDistinct(WithoutDeal(deals, id))
    ensures forall d | d in WithoutDeal(deals, id) :: d in deals && d.externalId != id
  {
    if deals != [] {
      var n := |deals| - 1;
      WithoutDealFacts(deals[..n], id);
      assert forall d | d in deals[..n] :: d.externalId != deals[n].externalId;
    }
  }

  /** Every customer holds each deal at most once, in every memory syncs can reach. */
  lemma {:induction false} DealsStayDistinct(m: Memory, inbox: seq<Change>, id: string)
    requires DealsDistinct(DealsIn(m, id))
    ensures DealsDistinct(DealsIn(Synced(m, inbox), id))
  {
    if inbox != [] {
      var n := |inbox| - 1;
      DealsStayDistinct(m, inbox[..n], id);
      AppliedStaysDistinct(Synced(m, inbox[..n]), inbox[n], id);
    }
  }

  lemma AppliedStaysDistinct(m: Memory, change: Change, id: string)
    requires DealsDistinct(DealsIn(m, id))
    ensures DealsDistinct(DealsIn(Applied(m, change), id))
  {
    if Brings(change, id) {
      WithoutDealFacts(DealsIn(m, id), change.deal.externalId);
    }
  }

  lemma {:induction false} KeyedInjective(a: seq<Deal>, b: seq<Deal>)
    requires Keyed(a) == Keyed(b)
    ensures a == b
  {
    assert |a| == |Keyed(a)| == |b|;
    forall i | 0 <= i < |a| ensures a[i] == b[i] {
      assert Keyed(a)[i] == Keyed(b)[i];
    }
  }

  lemma {:induction false} KnownAfterSync(m: Memory, inbox: seq<Change>)
    ensures forall id | id in m.records :: id in Synced(m, inbox).records
    ensures forall i, id | 0 <= i < |inbox| && Concerns(inbox[i], id) :: id in Synced(m, inbox).records
  {
    if inbox != [] {
      KnownAfterSync(m, inbox[..|inbox| - 1]);
    }
  }

  lemma {:induction false} NobodyNew(m: Memory, inbox: seq<Change>)
    requires forall i, id | 0 <= i < |inbox| && Concerns(inbox[i], id) :: id in m.records
    ensures Synced(m, inbox).order == m.order && Synced(m, inbox).records.Keys == m.records.Keys
  {
    if inbox != [] {
      var n := |inbox| - 1;
      NobodyNew(m, inbox[..n]);
      match inbox[n]
      case ContactChange(c, _) => assert Concerns(inbox[n], c.externalId);
      case DealChange(d, _) => assert Concerns(inbox[n], OwnerOf(d));
      case Rejected(_) =>
      case Broken(_) =>
    }
  }

  lemma RecordReplays(m: Memory, inbox: seq<Change>, id: string)
    ensures Lookup(Synced(Synced(m, inbox), inbox), id) == Lookup(Synced(m, inbox), id)
  {
    var once, twice := Synced(m, inbox), Synced(Synced(m, inbox), inbox);
    SyncedProfile(m, inbox, id);
    SyncedProfile(once, inbox, id);
    ProfileClosedForm(id, ProfileIn(m, id), inbox);
    ProfileClosedForm(id, ProfileIn(once, id), inbox);
    SyncedDeals(m, inbox, id);
    SyncedDeals(once, inbox, id);
    PutAllTwice(Keyed(DealsIn(m, id)), DealsFor(id, inbox));
    KeyedInjective(DealsIn(twice, id), DealsIn(once, id));
  }

  /** Replay safety: for every memory and inbox, syncing again changes nothing. */
  lemma SyncIsIdempotent(m: Memory, inbox: seq<Change>)
    ensures Synced(Synced(m, inbox), inbox) == Synced(m, inbox)
  {
    var once, twice := Synced(m, inbox), Synced(Synced(m, inbox), inbox);
    KnownAfterSync(m, inbox);
    NobodyNew(once, inbox);
    forall id | id in once.records ensures twice.records[id] == once.records[id] {
      RecordReplays(m, inbox, id);
    }
    assert twice.records == once.records;
  }

  // ------------------------------------------------- what is remembered of whom

  /** Whatever was known of a customer, a contact change leaves all fields as the contact has them. */
  lemma ContactIsRemembered(m: Memory, c: Contact)
    ensures c.externalId in Upserted(m, c).records
    ensures var p := Upserted(m, c).records[c.externalId].profile;
            && p.externalId == c.externalId && p.name == c.name && p.phone == c.phone && p.email == c.email
            && p.restaurantId == c.restaurantId && p.tags == c.tags
  {
  }

  /** A deal of nobody in particular makes a placeholder that no phone number finds, with the deal's restaurant. */
  lemma StrangerIsRemembered(m: Memory, d: Deal, phone: string)
    requires OwnerOf(d) !in m.records
    ensures OwnerOf(d) in Attached(m, d).records
    ensures var r := Attached(m, d).records[OwnerOf(d)];
            && r.profile.externalId == OwnerOf(d) && r.profile.name == "Unknown contact"
            && r.profile.restaurantId == d.restaurantId && r.profile.email == "" && r.profile.tags == []
            && r.deals == [d] && !Answers(r, DigitsTail(phone))
  {
    assert WithoutDeal([], d.externalId) == [];
  }

  /** Deals without a contact have an owner each; the others share their contact's. */
  lemma OwnersAre(a: Deal, b: Deal)
    ensures a.contactExternalId.Some? && a.contactExternalId.value != "" ==> OwnerOf(a) == a.contactExternalId.value
    ensures (a.contactExternalId == None || a.contactExternalId.value == "") ==> "orphan-" <= OwnerOf(a)
    ensures (forall d | d == a || d == b :: d.contactExternalId == None) ==>
              (OwnerOf(a) == OwnerOf(b) <==> a.externalId == b.externalId)
  {
    if a.contactExternalId == None && b.contactExternalId == None && OwnerOf(a) == OwnerOf(b) {
      assert OwnerOf(a)[7..] == a.externalId && OwnerOf(b)[7..] == b.externalId;
    }
  }

  predicate IsDigit(c: char) {
    '0' <= c <= '9'
  }

  /** The digits of a text: all of a number, and nothing of what is around and between. */
  lemma {:induction false} DigitsAre(s: string)
    ensures forall c | c in Digits(s) :: IsDigit(c) && c in s
    ensures (forall c | c in s :: IsDigit(c)) ==> Digits(s) == s
    ensures (forall c | c in s :: !IsDigit(c)) ==> Digits(s) == ""
  {
    if s != "" {
      var n := |s| - 1;
      DigitsAre(s[..n]);
      assert s == s[..n] + [s[n]];
      assert forall c | c in s[..n] :: c in s;
      assert s[n] in s;
    }
  }

  /** Two phones are told apart by the last ten of their digits, or by all if there are fewer. */
  lemma TailsTellApart(a: string, b: string)
    ensures |DigitsTail(a)| == Min(10, |Digits(a)|)
    ensures DigitsTail(a) == Digits(a)[|Digits(a)| - |DigitsTail(a)|..]
    ensures |Digits(a)| <= 10 && |Digits(b)| <= 10 ==> (DigitsTail(a) == DigitsTail(b) <==> Digits(a) == Digits(b))
  {
  }

  /** The writing of a number does not matter: parts without digits may stand anywhere in it. */
  lemma FormattingIsIgnored(a: string, filler: string, b: string)
    requires forall c | c in filler :: !IsDigit(c)
    ensures DigitsTail(a + filler + b) == DigitsTail(a + b)
  {
    hide Digits;
    DigitsAre(filler);
    DigitsAppend(a + filler, b);
    DigitsAppend(a, filler);
    DigitsAppend(a, b);
    assert Digits(a) + "" == Digits(a);
  }

  /** A contact with a number is found by any writing of it, unless an older record answers too. */
  lemma ContactIsFound(m: Memory, c: Contact, phone: string)
    requires DigitsTail(phone) == DigitsTail(c.phone) != "" && c.externalId !in m.records
    requires forall i | 0 <= i < |m.order| :: !AnswersAt(m, i, DigitsTail(phone)) && m.order[i] in m.records
    ensures FoundByPhone(Upserted(m, c), phone) == Some(Upserted(m, c).records[c.externalId])
  {
    var after, needle := Upserted(m, c), DigitsTail(phone);
    DigitsAre(c.phone);
    assert Digits("") == "";
    forall i | 0 <= i < |m.order| ensures !AnswersAt(after, i, needle) {
      assert !AnswersAt(m, i, needle) && m.order[i] != c.externalId;
    }
    assert AnswersAt(after, |m.order|, needle);
    assert AnswersFirst(after, |m.order|, needle);
    FoundFromIsFirst(after, needle, 0);
    FirstAnswerUnique(after, needle, FoundByPhone(after, phone), Some(after.records[c.externalId]));
  }
}
