/**
 The CRM normalizer: vendor payloads, which may hold anything JSON can hold, become
 changes. Some payloads are refused with an error the sync counts; others break
 it, with a fault nobody catches.
 */
module Normalizer {
  import opened Basics
  import opened Text

  /** A JSON value as it is decoded; a missing member is a key that is not in the map. */
  datatype Field =
    | Null
    | Bool(flag: bool)
    | Integer(number: int)
    | Decimal(figure: Number)
    | Text(text: string)
    | List(items: seq<Field>)
    | Dict(entries: map<string, Field>)

  datatype Contact = Contact(
    externalId: string, name: string, phone: string, email: string,
    restaurantId: Option<string>, tags: seq<string>)

  datatype Deal = Deal(
    externalId: string, title: string, stage: string, amount: Number,
    contactExternalId: Option<string>, restaurantId: Option<string>)

  datatype Action = Created | Updated

  /** Why a payload ends a sync. */
  datatype Fault =
    | NoMapping         // a lookup in something that is no object
    | NameNotText       // joining names that are not text
    | AmountTooLarge    // an integer no float can hold
    | ContractViolated  // a contact or deal the data contract refuses

  datatype Change =
    | ContactChange(contact: Contact, action: Action)
    | DealChange(deal: Deal, action: Action)
    | Rejected(error: string)
    | Broken(fault: Fault)

  /** How a value that is no text is written, and which number a text denotes. */
  datatype Conversions = Conversions(show: Field -> string, parse: string -> Option<Number>)
  {
    function Str(f: Field): string {
      if f.Text? then f.text else show(f)
    }
  }

  predicate Truthy(f: Field) {
    match f
    case Null => false
    case Bool(flag) => flag
    case Integer(n) => n != 0
    case Decimal(x) => x != Finite(0.0)
    case Text(t) => t != ""
    case List(items) => items != []
    case Dict(entries) => entries != map[]
  }

  function Get(entries: map<string, Field>, key: string, default: Field): Field {
    if key in entries then entries[key] else default
  }

  function Or(f: Field, default: Field): Field {
    if Truthy(f) then f else default
  }

  const EMPTY := Dict(map[])

  function ContactAction(event: string): Option<Action> {
    if event == "ONCRMCONTACTADD" then Some(Created)
    else if event == "ONCRMCONTACTUPDATE" then Some(Updated)
    else None
  }

  function DealAction(event: string): Option<Action> {
    if event == "ONCRMDEALADD" then Some(Created)
    else if event == "ONCRMDEALUPDATE" then Some(Updated)
    else None
  }

  function EventOf(conv: Conversions, entries: map<string, Field>): string {
    Upper(conv.Str(Get(entries, "event", Text(""))))
  }

  // ------------------------------------------------------------------- fields

  /** The phone of a contact is the first of its list of phones. */
  function PhoneOf(conv: Conversions, phones: Field): string {
    if !phones.List? || phones.items == [] then ""
    else if phones.items[0].Dict? then conv.Str(Get(phones.items[0].entries, "VALUE", Text("")))
    else conv.Str(phones.items[0])
  }

  /** The names that are given, joined; none if one of them is no text. */
  function NameOf(fields: map<string, Field>): Option<string> {
    if BadName(fields) then None else Some(Strip(Join(GivenNames(fields), " ")))
  }

  function GivenNames(fields: map<string, Field>): seq<string>
    requires !BadName(fields)
  {
    var first, last := Get(fields, "NAME", Text("")), Get(fields, "LAST_NAME", Text(""));
    (if Truthy(first) then [first.text] else []) + (if Truthy(last) then [last.text] else [])
  }

  /** A member that is there, is not empty, and is not of the wanted kind. */
  predicate Misplaced(entries: map<string, Field>, key: string, wanted: Field -> bool) {
    key in entries && Truthy(entries[key]) && !wanted(entries[key])
  }

  predicate BadName(fields: map<string, Field>) {
    || Misplaced(fields, "NAME", (f: Field) => f.Text?)
    || Misplaced(fields, "LAST_NAME", (f: Field) => f.Text?)
  }

  /** A restaurant id is a text or null. */
  function RestaurantOf(fields: map<string, Field>): Result<Option<string>, Fault> {
    match Get(fields, "UF_RESTAURANT_ID", Null)
    case Null => Ok(None)
    case Text(t) => Ok(Some(t))
    case _ => Err(ContractViolated)
  }

  function IndexOf(s: string, c: char): (n: nat)
    ensures n <= |s| && (n < |s| ==> s[n] == c) && forall i | 0 <= i < n :: s[i] != c
  {
    if s == "" || s[0] == c then 0 else 1 + IndexOf(s[1..], c)
  }

  function SplitAt(s: string, c: char): (parts: seq<string>)
    ensures parts != []
    decreases |s|
  {
    var n := IndexOf(s, c);
    if n == |s| then [s] else [s[..n]] + SplitAt(s[n + 1..], c)
  }

  function NonEmpty(parts: seq<string>): seq<string> {
    if parts == [] then []
    else (if parts[0] == "" then [] else [parts[0]]) + NonEmpty(parts[1..])
  }

  function LastPart(s: string, c: char): string {
    var parts := SplitAt(s, c);
    parts[|parts| - 1]
  }

  const TWO_TO_128 := 0x1_0000_0000_0000_0000_0000_0000_0000_0000
  const TWO_TO_512 := TWO_TO_128 * TWO_TO_128 * TWO_TO_128 * TWO_TO_128

  /** 2^1024 - 2^970, the least integer that rounds to no double. */
  const TOO_LARGE :=
    TWO_TO_512 * TWO_TO_512
    - TWO_TO_512 * TWO_TO_128 * TWO_TO_128 * TWO_TO_128 * 0x400_0000_0000_0000_0000

  function AmountOf(conv: Conversions, opportunity: Field): Result<Number, Fault> {
    match Or(opportunity, Decimal(Finite(0.0)))
    case Bool(_) => Ok(Finite(1.0))
    case Integer(n) => if n >= TOO_LARGE || n <= -TOO_LARGE then Err(AmountTooLarge) else Ok(Finite(n as real))
    case Decimal(x) => Ok(x)
    case Text(t) => Ok(if conv.parse(t).Some? then conv.parse(t).value else Finite(0.0))
    case _ => Ok(Finite(0.0))
  }

  // ----------------------------------------------------------------- payloads

  function ContactFrom(conv: Conversions, fields: map<string, Field>): Result<Contact, Fault> {
    var name := NameOf(fields);
    if name == None then Err(NameNotText)
    else
      var restaurant := RestaurantOf(fields);
      if restaurant.Err? then Err(restaurant.error)
      else
        Ok(Contact(
             conv.Str(Get(fields, "ID", Text(""))),
             if name.value == "" then "Unknown contact" else name.value,
             PhoneOf(conv, Get(fields, "PHONE", Null)),
             conv.Str(Or(Get(fields, "EMAIL", Text("")), Text(""))),
             restaurant.value,
             NonEmpty(SplitAt(conv.Str(Or(Get(fields, "UF_TAGS", Text("")), Text(""))), ','))))
  }

  function DealFrom(conv: Conversions, fields: map<string, Field>): Result<Deal, Fault> {
    var amount := AmountOf(conv, Get(fields, "OPPORTUNITY", Null));
    if amount.Err? then Err(amount.error)
    else if amount.value.Below(0.0) then Err(ContractViolated)
    else
      var restaurant := RestaurantOf(fields);
      if restaurant.Err? then Err(restaurant.error)
      else
        var contact := Get(fields, "CONTACT_ID", Null);
        Ok(Deal(
             conv.Str(Get(fields, "ID", Text(""))),
             conv.Str(Get(fields, "TITLE", Text("Untitled deal"))),
             LastPart(conv.Str(Get(fields, "STAGE_ID", Text("UNKNOWN"))), ':'),
             amount.value,
             if Truthy(contact) then Some(conv.Str(contact)) else None,
             restaurant.value))
  }

  /** What the fields of an event become. */
  function FromFields(conv: Conversions, event: string, fields: Field): Change {
    if ContactAction(event).Some? then
      if !fields.Dict? then Broken(NoMapping)
      else
        match ContactFrom(conv, fields.entries)
        case Ok(contact) => ContactChange(contact, ContactAction(event).value)
        case Err(fault) => Broken(fault)
    else if DealAction(event).Some? then
      if !fields.Dict? then Broken(NoMapping)
      else
        match DealFrom(conv, fields.entries)
        case Ok(deal) => DealChange(deal, DealAction(event).value)
        case Err(fault) => Broken(fault)
    else Rejected("Unsupported Bitrix event: '" + event + "'")
  }

  /** A payload becomes a change, is refused, or breaks. */
  function Normalized(conv: Conversions, payload: Field): Change {
    if !payload.Dict? then Broken(NoMapping)
    else
      var event := EventOf(conv, payload.entries);
      var data := Or(Get(payload.entries, "data", Null), EMPTY);
      if !data.Dict? then Broken(NoMapping)
      else
        var fields := Or(Get(data.entries, "FIELDS", Null), EMPTY);
        if Truthy(fields) then FromFields(conv, event, fields)
        else Rejected("Bitrix payload without FIELDS: " + if event == "" then "unknown" else event)
  }

  /** A payload is refused exactly for missing or empty fields or an event of neither kind, with these words. */
  lemma RejectedIff(conv: Conversions, payload: Field, message: string)
    ensures Normalized(conv, payload) == Rejected(message)
            <==> && payload.Dict? && Or(Get(payload.entries, "data", Null), EMPTY).Dict?
                 && var event := EventOf(conv, payload.entries);
                    if !HasFields(payload)
                    then message == "Bitrix payload without FIELDS: " + (if event == "" then "unknown" else event)
                    else ContactAction(event) == None && DealAction(event) == None
                         && message == "Unsupported Bitrix event: '" + event + "'"
  {
    hide ContactFrom, DealFrom, ContactAction, DealAction, EventOf;
  }

  // -------------------------------------------------- which payloads break a sync

  predicate BadRestaurant(fields: map<string, Field>) {
    "UF_RESTAURANT_ID" in fields && !fields["UF_RESTAURANT_ID"].Null? && !fields["UF_RESTAURANT_ID"].Text?
  }

  /** An amount below zero, as a number or in words, or an integer that no float holds. */
  predicate BadAmount(conv: Conversions, fields: map<string, Field>) {
    && "OPPORTUNITY" in fields
    && match fields["OPPORTUNITY"]
       case Integer(n) => n < 0 || n >= TOO_LARGE
       case Decimal(x) => x.Below(0.0)
       case Text(t) => t != "" && conv.parse(t).Some? && conv.parse(t).value.Below(0.0)
       case _ => false
  }

  predicate BadFields(conv: Conversions, event: string, fields: Field) {
    if ContactAction(event).Some? then
      !fields.Dict? || BadRestaurant(fields.entries) || BadName(fields.entries)
    else if DealAction(event).Some? then
      !fields.Dict? || BadRestaurant(fields.entries) || BadAmount(conv, fields.entries)
    else false
  }

  predicate HasFields(payload: Field) {
    && payload.Dict? && "data" in payload.entries && payload.entries["data"].Dict?
    && "FIELDS" in payload.entries["data"].entries && Truthy(payload.entries["data"].entries["FIELDS"])
  }

  predicate Supported(event: string) {
    ContactAction(event).Some? || DealAction(event).Some?
  }

  /** What a caller can look for before a sync. */
  predicate Breaks(conv: Conversions, payload: Field) {
    || !payload.Dict?
    || Misplaced(payload.entries, "data", (f: Field) => f.Dict?)
    || (HasFields(payload)
        && BadFields(conv, EventOf(conv, payload.entries), payload.entries["data"].entries["FIELDS"]))
  }

  lemma ContactBreaksIff(conv: Conversions, fields: map<string, Field>)
    ensures ContactFrom(conv, fields).Err? <==> BadRestaurant(fields) || BadName(fields)
  {
  }

  lemma DealBreaksIff(conv: Conversions, fields: map<string, Field>)
    ensures DealFrom(conv, fields).Err? <==> BadRestaurant(fields) || BadAmount(conv, fields)
  {
    AmountBreaksIff(conv, fields);
  }

  lemma AmountBreaksIff(conv: Conversions, fields: map<string, Field>)
    ensures var amount := AmountOf(conv, Get(fields, "OPPORTUNITY", Null));
            amount.Err? || amount.value.Below(0.0) <==> BadAmount(conv, fields)
  {
    assert TOO_LARGE > 0;
  }

  lemma FromFieldsIff(conv: Conversions, event: string, fields: Field)
    ensures FromFields(conv, event, fields).Broken? <==> BadFields(conv, event, fields)
    ensures FromFields(conv, event, fields).Rejected? <==> !Supported(event)
  {
    if fields.Dict? {
      ContactBreaksIff(conv, fields.entries);
      DealBreaksIff(conv, fields.entries);
    }
  }

  lemma EntriesOf(entries: map<string, Field>, key: string)
    ensures var value := Or(Get(entries, key, Null), EMPTY);
            && (Truthy(value) <==> key in entries && Truthy(entries[key]))
            && (if Truthy(value) then value == entries[key] else value == EMPTY)
  {
  }

  /**
   A payload ends the sync exactly if its fields say so; of the others, those without
   fields or with an unknown event are refused, and the rest are changes.
   */
  lemma BrokenIff(conv: Conversions, payload: Field)
    ensures Normalized(conv, payload).Broken? <==> Breaks(conv, payload)
    ensures Normalized(conv, payload).Rejected? <==>
            && !Breaks(conv, payload)
            && !(HasFields(payload) && Supported(EventOf(conv, payload.entries)))
  {
    hide FromFields, BadFields, EventOf, Supported, Or;
    if payload.Dict? {
      EntriesOf(payload.entries, "data");
      var data := Or(Get(payload.entries, "data", Null), EMPTY);
      if data.Dict? {
        EntriesOf(data.entries, "FIELDS");
        FromFieldsIff(conv, EventOf(conv, payload.entries), Or(Get(data.entries, "FIELDS", Null), EMPTY));
      }
    }
  }

  /** A contact whose restaurant id is a number. */
  function Numbered(id: string, restaurant: int): Field {
    Dict(map["ID" := Text(id), "UF_RESTAURANT_ID" := Integer(restaurant)])
  }

  /** A payload in the vendor's form. */
  function Posted(event: string, fields: Field): Field {
    Dict(map["event" := Text(event), "data" := Dict(map["FIELDS" := fields])])
  }

  lemma PostedBecomes(conv: Conversions, event: string, fields: Field)
    requires Truthy(fields)
    ensures Normalized(conv, Posted(event, fields)) == FromFields(conv, Upper(event), fields)
  {
    var data := Posted(event, fields).entries["data"];
    assert "FIELDS" in data.entries && data.entries["FIELDS"] == fields;
  }

  lemma NumberedBreaks(conv: Conversions, id: string, restaurant: int)
    ensures Truthy(Numbered(id, restaurant))
    ensures FromFields(conv, "ONCRMCONTACTADD", Numbered(id, restaurant)) == Broken(ContractViolated)
  {
    assert "ID" in Numbered(id, restaurant).entries;
  }

  /** The plainest input that ends a sync, although it is one record's fault. */
  lemma NumberedContactBreaks(conv: Conversions, id: string, restaurant: int)
    ensures Normalized(conv, Posted("ONCRMCONTACTADD", Numbered(id, restaurant))) == Broken(ContractViolated)
  {
    NumberedBreaks(conv, id, restaurant);
    UpperStays("ONCRMCONTACTADD");
    PostedBecomes(conv, "ONCRMCONTACTADD", Numbered(id, restaurant));
  }

  lemma UpperStays(s: string)
    requires forall c | c in s :: UpperChar(c) == c
    ensures Upper(s) == s
  {
  }

  // --------------------------------------------------------- what changes look like

  /** Splitting is undone by joining, and no part holds the separator. */
  lemma {:induction false} SplitAtFacts(s: string, c: char)
    ensures Join(SplitAt(s, c), [c]) == s
    ensures forall part | part in SplitAt(s, c) :: c !in part
    decreases |s|
  {
    var n := IndexOf(s, c);
    if n < |s| {
      SplitAtFacts(s[n + 1..], c);
      assert s == s[..n] + [c] + s[n + 1..];
      assert SplitAt(s, c)[1..] == SplitAt(s[n + 1..], c);
    }
  }

  lemma {:induction false} NonEmptyFacts(parts: seq<string>)
    ensures forall part | part in NonEmpty(parts) :: part != "" && part in parts
  {
    if parts != [] {
      NonEmptyFacts(parts[1..]);
    }
  }

  predicate CleanContact(c: Contact) {
    Trimmed(c.name) && forall tag | tag in c.tags :: tag != "" && ',' !in tag
  }

  predicate CleanDeal(d: Deal) {
    !d.amount.Below(0.0) && ':' !in d.stage
  }

  lemma ContactIsClean(conv: Conversions, fields: map<string, Field>)
    requires ContactFrom(conv, fields).Ok?
    ensures CleanContact(ContactFrom(conv, fields).value)
  {
    StripShape(Join(GivenNames(fields), " "));
    assert Trimmed("Unknown contact") by {
      assert !Space('U') && !Space('t');
    }
    var tags := conv.Str(Or(Get(fields, "UF_TAGS", Text("")), Text("")));
    SplitAtFacts(tags, ',');
    NonEmptyFacts(SplitAt(tags, ','));
  }

  lemma DealIsClean(conv: Conversions, fields: map<string, Field>)
    requires DealFrom(conv, fields).Ok?
    ensures CleanDeal(DealFrom(conv, fields).value)
  {
    SplitAtFacts(conv.Str(Get(fields, "STAGE_ID", Text("UNKNOWN"))), ':');
  }

  lemma FieldsAreClean(conv: Conversions, event: string, fields: Field)
    ensures var change := FromFields(conv, event, fields);
            && (change.ContactChange? ==> CleanContact(change.contact))
            && (change.DealChange? ==> CleanDeal(change.deal))
  {
    if fields.Dict? && ContactFrom(conv, fields.entries).Ok? {
      ContactIsClean(conv, fields.entries);
    }
    if fields.Dict? && DealFrom(conv, fields.entries).Ok? {
      DealIsClean(conv, fields.entries);
    }
  }

  /**
   A contact that gets through has a trimmed name and tags without commas; a deal
   has an amount that is not below zero and a stage without its pipeline.
   */
  lemma ChangesAreClean(conv: Conversions, payload: Field)
    ensures var change := Normalized(conv, payload);
            && (change.ContactChange? ==> CleanContact(change.contact))
            && (change.DealChange? ==> CleanDeal(change.deal))
  {
    if payload.Dict? {
      var data := Or(Get(payload.entries, "data", Null), EMPTY);
      if data.Dict? {
        FieldsAreClean(conv, EventOf(conv, payload.entries), Or(Get(data.entries, "FIELDS", Null), EMPTY));
      }
    }
  }

  // ------------------------------------------------------ posted and read back

  function TextOrNull(text: Option<string>): Field {
    if text.Some? then Text(text.value) else Null
  }

  /** A contact in the vendor's form. */
  function ContactForm(c: Contact, first: string, last: string): Field {
    Dict(map["ID" := Text(c.externalId), "NAME" := Text(first), "LAST_NAME" := Text(last),
             "PHONE" := List([Dict(map["VALUE" := Text(c.phone)])]), "EMAIL" := Text(c.email),
             "UF_RESTAURANT_ID" := TextOrNull(c.restaurantId), "UF_TAGS" := Text(Join(c.tags, ","))])
  }

  /** A deal in the vendor's form. */
  function DealForm(d: Deal, pipeline: string): Field {
    Dict(map["ID" := Text(d.externalId), "TITLE" := Text(d.title), "STAGE_ID" := Text(pipeline + ":" + d.stage),
             "OPPORTUNITY" := Decimal(d.amount), "CONTACT_ID" := TextOrNull(d.contactExternalId),
             "UF_RESTAURANT_ID" := TextOrNull(d.restaurantId)])
  }

  lemma {:induction false} SplitOfJoined(parts: seq<string>, c: char)
    requires parts != [] && forall p | p in parts :: c !in p
    ensures SplitAt(Join(parts, [c]), c) == parts
  {
    if |parts| == 1 {
      NotThere(parts[0], c);
    } else {
      hide SplitAt, IndexOf;
      SplitOfJoined(parts[1..], c);
      FirstSeparator(parts[0], c, Join(parts[1..], [c]));
      assert [parts[0]] + parts[1..] == parts;
    }
  }

  lemma {:induction false} NotThere(s: string, c: char)
    requires c !in s
    ensures IndexOf(s, c) == |s|
  {
    assert forall i | 0 <= i < |s| :: s[i] in s;
  }

  lemma FirstSeparator(part: string, c: char, rest: string)
    requires c !in part
    ensures SplitAt(part + [c] + rest, c) == [part] + SplitAt(rest, c)
  {
    hide SplitAt, IndexOf;
    var s := part + [c] + rest;
    assert s[|part|] == c;
    assert forall i | 0 <= i < |part| :: s[i] == part[i] && part[i] in part;
    SplitThere(s, c, |part|);
    assert s[..|part|] == part && s[|part| + 1..] == rest;
  }

  lemma SplitThere(s: string, c: char, n: nat)
    requires n < |s| && s[n] == c && forall i | 0 <= i < n :: s[i] != c
    ensures SplitAt(s, c) == [s[..n]] + SplitAt(s[n + 1..], c)
  {
    assert IndexOf(s, c) == n;
  }

  lemma {:induction false} NonEmptyKeeps(parts: seq<string>)
    requires forall p | p in parts :: p != ""
    ensures NonEmpty(parts) == parts
  {
    if parts != [] {
      assert parts[0] in parts && forall p | p in parts[1..] :: p in parts;
      NonEmptyKeeps(parts[1..]);
      assert parts == [parts[0]] + parts[1..];
    }
  }

  lemma TagsReadBack(tags: seq<string>)
    requires forall tag | tag in tags :: tag != "" && ',' !in tag
    ensures NonEmpty(SplitAt(Join(tags, ","), ',')) == tags
  {
    if tags == [] {
      NotThere("", ',');
      assert SplitAt("", ',') == [""] && NonEmpty([""]) == [] + NonEmpty([]);
    } else {
      assert "," == [','];
      SplitOfJoined(tags, ',');
      NonEmptyKeeps(tags);
    }
  }

  lemma StageReadsBack(pipeline: string, stage: string)
    requires ':' !in stage
    ensures LastPart(pipeline + ":" + stage, ':') == stage
  {
    LastPartOf(pipeline, ':', stage);
  }

  lemma {:induction false} LastPartOf(before: string, c: char, last: string)
    requires c !in last
    ensures LastPart(before + [c] + last, c) == last
    decreases |before|
  {
    var n := IndexOf(before, c);
    if n == |before| {
      assert c !in before;
      FirstSeparator(before, c, last);
      NotThere(last, c);
    } else {
      var part, rest := before[..n], before[n + 1..];
      assert before == part + [c] + rest;
      assert before + [c] + last == part + [c] + (rest + [c] + last);
      FirstSeparator(part, c, rest + [c] + last);
      LastPartOf(rest, c, last);
    }
  }

  function EventName(kind: string, action: Action): string {
    "ONCRM" + kind + if action == Created then "ADD" else "UPDATE"
  }

  lemma ContactEvents(action: Action)
    ensures Upper(EventName("CONTACT", action)) == EventName("CONTACT", action)
    ensures ContactAction(EventName("CONTACT", action)) == Some(action)
  {
    UpperStays(EventName("CONTACT", action));
  }

  lemma DealEvents(action: Action)
    ensures Upper(EventName("DEAL", action)) == EventName("DEAL", action)
    ensures DealAction(EventName("DEAL", action)) == Some(action) && ContactAction(EventName("DEAL", action)) == None
  {
    UpperStays(EventName("DEAL", action));
  }

  lemma GivenNamesOf(fields: map<string, Field>, first: string, last: string)
    requires "NAME" in fields && fields["NAME"] == Text(first)
    requires "LAST_NAME" in fields && fields["LAST_NAME"] == Text(last)
    requires first != "" && last != ""
    ensures NameOf(fields) == Some(Strip(first + " " + last))
  {
    assert GivenNames(fields) == [first, last];
    assert [first, last][1..] == [last] && Join([last], " ") == last;
    assert Join([first, last], " ") == first + " " + last;
  }

  lemma ContactFormReads(conv: Conversions, c: Contact, first: string, last: string)
    requires first != "" && last != "" && c.name == first + " " + last && Trimmed(c.name)
    requires forall tag | tag in c.tags :: tag != "" && ',' !in tag
    ensures ContactFrom(conv, ContactForm(c, first, last).entries) == Ok(c)
  {
    var fields := ContactForm(c, first, last).entries;
    GivenNamesOf(fields, first, last);
    StripTrimmed(c.name);
    TagsReadBack(c.tags);
    FormValues(c, fields);
  }

  /** The single fields of a contact's form. */
  lemma FormValues(c: Contact, fields: map<string, Field>)
    requires exists first, last :: fields == ContactForm(c, first, last).entries
    ensures Get(fields, "ID", Text("")) == Text(c.externalId)
    ensures Get(fields, "PHONE", Null) == List([Dict(map["VALUE" := Text(c.phone)])])
    ensures Or(Get(fields, "EMAIL", Text("")), Text("")) == Text(c.email)
    ensures Or(Get(fields, "UF_TAGS", Text("")), Text("")) == Text(Join(c.tags, ","))
    ensures RestaurantOf(fields) == Ok(c.restaurantId)
  {
  }

  /** Every contact with clean fields is read back from its form, field by field. */
  lemma ContactsReadBack(conv: Conversions, c: Contact, first: string, last: string, action: Action)
    requires first != "" && last != "" && c.name == first + " " + last && CleanContact(c)
    ensures Normalized(conv, Posted(EventName("CONTACT", action), ContactForm(c, first, last)))
            == ContactChange(c, action)
  {
    hide ContactFrom;
    ContactEvents(action);
    ContactFormReads(conv, c, first, last);
    assert "ID" in ContactForm(c, first, last).entries;
    PostedBecomes(conv, EventName("CONTACT", action), ContactForm(c, first, last));
  }

  lemma DealFormReads(conv: Conversions, d: Deal, pipeline: string)
    requires !d.amount.Below(0.0) && ':' !in d.stage && d.contactExternalId != Some("")
    ensures DealFrom(conv, DealForm(d, pipeline).entries) == Ok(d)
  {
    var fields := DealForm(d, pipeline).entries;
    StageReadsBack(pipeline, d.stage);
    assert AmountOf(conv, Get(fields, "OPPORTUNITY", Null)) == Ok(d.amount);
    assert RestaurantOf(fields) == Ok(d.restaurantId);
  }

  /** Every deal with an amount that is not below zero is read back from its form, whatever its pipeline. */
  lemma DealsReadBack(conv: Conversions, d: Deal, pipeline: string, action: Action)
    requires CleanDeal(d) && d.contactExternalId != Some("")
    ensures Normalized(conv, Posted(EventName("DEAL", action), DealForm(d, pipeline))) == DealChange(d, action)
  {
    hide DealFrom;
    DealEvents(action);
    DealFormReads(conv, d, pipeline);
    assert "ID" in DealForm(d, pipeline).entries;
    PostedBecomes(conv, EventName("DEAL", action), DealForm(d, pipeline));
  }

  /** What a deal's form may leave out. */
  lemma DealDefaults(conv: Conversions, fields: map<string, Field>)
    requires DealFrom(conv, fields).Ok?
    ensures var d := DealFrom(conv, fields).value;
            && ("TITLE" !in fields ==> d.title == "Untitled deal")
            && ("STAGE_ID" !in fields ==> d.stage == "UNKNOWN")
            && ("CONTACT_ID" !in fields ==> d.contactExternalId == None)
            && ("ID" !in fields ==> d.externalId == "")
            && ("UF_RESTAURANT_ID" !in fields ==> d.restaurantId == None)
  {
    hide AmountOf, LastPart;
    UnknownStage();
  }

  lemma UnknownStage()
    ensures LastPart("UNKNOWN", ':') == "UNKNOWN"
  {
    NotThere("UNKNOWN", ':');
  }

  /** What each kind of amount is read as; what is no amount at all counts as none. */
  lemma AmountIs(conv: Conversions, fields: map<string, Field>)
    requires DealFrom(conv, fields).Ok?
    ensures DealFrom(conv, fields).value.amount
            == match Get(fields, "OPPORTUNITY", Null)
               case Null => Finite(0.0)
               case Bool(yes) => Finite(if yes then 1.0 else 0.0)
               case Integer(n) => Finite(n as real)
               case Decimal(x) => x
               case Text(t) => if t != "" && conv.parse(t).Some? then conv.parse(t).value else Finite(0.0)
               case List(_) => Finite(0.0)
               case Dict(_) => Finite(0.0)
  {
    hide SplitAt, RestaurantOf;
  }

  /** What a contact's form may leave out. */
  lemma ContactDefaults(conv: Conversions, fields: map<string, Field>, phone: string)
    requires ContactFrom(conv, fields).Ok?
    ensures var c := ContactFrom(conv, fields).value;
            && ("NAME" !in fields && "LAST_NAME" !in fields ==> c.name == "Unknown contact")
            && ("ID" !in fields ==> c.externalId == "")
            && ("PHONE" !in fields ==> c.phone == "")
            && ("PHONE" in fields && fields["PHONE"] == List([Text(phone)]) ==> c.phone == phone)
            && ("EMAIL" !in fields ==> c.email == "")
            && ("UF_RESTAURANT_ID" !in fields ==> c.restaurantId == None)
            && ("UF_TAGS" !in fields ==> c.tags == [])
  {
    NotThere("", ',');
    assert SplitAt("", ',') == [""] && NonEmpty([""]) == [];
    if "NAME" !in fields && "LAST_NAME" !in fields {
      assert GivenNames(fields) == [] && Strip("") == "";
    }
  }
}
