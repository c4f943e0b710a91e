/**
 The offer factory: catalog entries and prices of the selected modules, the
 engine's projection, and the store of assembled offers.
 */
module Offers {
  import opened Basics
  import opened Roi

  datatype Catalog = Catalog(modules: map<ModuleCode, PalomaModule>, prices: map<ModuleCode, ModulePrice>)

  /** The catalog is loaded keyed by the modules' own codes. */
  type Knowledge = k: Catalog | forall code | code in k.modules :: k.modules[code].code == code
    witness Catalog(map[], map[])

  datatype LineItem = LineItem(
    code: ModuleCode, name: string, setupFee: Fee, monthlyFee: Fee, currency: Currency)

  datatype Offer = Offer(
    offerId: string, restaurantId: string, summary: string, lineItems: seq<LineItem>, roi: RoiProjection)

  datatype BuildError = UnknownModule(code: ModuleCode) | EmptyBundle | SummaryTooLong

  const MAX_SUMMARY := 1500

  predicate FirstUnknown(codes: seq<ModuleCode>, known: set<ModuleCode>, code: ModuleCode) {
    exists i :: 0 <= i < |codes| && codes[i] == code && code !in known && forall c | c in codes[..i] :: c in known
  }

  function FirstMissing(codes: seq<ModuleCode>, known: set<ModuleCode>): (missing: Option<ModuleCode>)
    ensures missing == None <==> forall c | c in codes :: c in known
    ensures missing.Some? ==> FirstUnknown(codes, known, missing.value)
  {
    if codes == [] then None
    else if codes[0] !in known then
      assert codes[..0] == [];
      Some(codes[0])
    else
      var missing := FirstMissing(codes[1..], known);
      assert missing.Some? ==> FirstUnknown(codes, known, missing.value) by {
        forall i | 0 <= i < |codes| - 1 ensures codes[..i + 1] == [codes[0]] + codes[1..][..i] {
        }
      }
      missing
  }

  function ModulesOf(kb: Knowledge, codes: seq<ModuleCode>): (ms: seq<PalomaModule>)
    requires forall c | c in codes :: c in kb.modules
    ensures |ms| == |codes|
  {
    seq(|codes|, i requires 0 <= i < |codes| => kb.modules[codes[i]])
  }

  function PricesOf(kb: Knowledge, codes: seq<ModuleCode>): (ps: seq<ModulePrice>)
    requires forall c | c in codes :: c in kb.prices
    ensures |ps| == |codes|
  {
    seq(|codes|, i requires 0 <= i < |codes| => kb.prices[codes[i]])
  }

  function ItemFor(m: PalomaModule, p: ModulePrice): LineItem {
    LineItem(m.code, m.name, p.setupFee, p.monthlyFee, p.currency)
  }

  function ItemsFor(ms: seq<PalomaModule>, ps: seq<ModulePrice>): (items: seq<LineItem>)
    requires |ms| == |ps|
    ensures |items| == |ms|
    ensures forall i | 0 <= i < |ms| :: items[i] == ItemFor(ms[i], ps[i])
  {
    seq(|ms|, i requires 0 <= i < |ms| => ItemFor(ms[i], ps[i]))
  }

  /** What the restaurant is offered, and under which assumptions. */
  datatype Request = Request(metrics: Metrics, codes: seq<ModuleCode>, summary: string)

  datatype Terms = Terms(horizon: Horizon, assumptions: Assumptions)

  ghost function FiguresFor(kb: Knowledge, terms: Terms, request: Request): Figures
    requires forall c | c in request.codes :: c in kb.modules && c in kb.prices
  {
    FiguresOf(request.metrics, ModulesOf(kb, request.codes), PricesOf(kb, request.codes),
              terms.horizon, terms.assumptions)
  }

  /** The offer a request leads to, or the first thing that is wrong with it. */
  ghost function Assembled(kb: Knowledge, terms: Terms, request: Request, offerId: string)
    : Result<Offer, BuildError>
  {
    var noModule := FirstMissing(request.codes, kb.modules.Keys);
    var noPrice := FirstMissing(request.codes, kb.prices.Keys);
    if noModule.Some? then Err(UnknownModule(noModule.value))
    else if noPrice.Some? then Err(UnknownModule(noPrice.value))
    else if request.codes == [] then Err(EmptyBundle)
    else if |request.summary| > MAX_SUMMARY then Err(SummaryTooLong)
    else
      Ok(Offer(offerId, request.metrics.restaurantId, request.summary,
               ItemsFor(ModulesOf(kb, request.codes), PricesOf(kb, request.codes)),
               Rounded(FiguresFor(kb, terms, request), terms.horizon)))
  }

  /**
   An offer is assembled exactly for a bundle that is known and priced, not empty,
   and summarised briefly. It carries what was asked for: one line per code, in
   order, with the code's name and price. Otherwise the first unknown code, in the
   catalog or else in the price list, is named.
   */
  lemma OfferIsAsAsked(kb: Knowledge, terms: Terms, request: Request, offerId: string)
    ensures var built := Assembled(kb, terms, request, offerId);
            var codes := request.codes;
            && (built.Ok? <==> codes != [] && |request.summary| <= 1500
                               && forall c | c in codes :: c in kb.modules && c in kb.prices)
            && (built.Ok? ==>
                  && built.value.offerId == offerId && built.value.restaurantId == request.metrics.restaurantId
                  && built.value.summary == request.summary && |built.value.lineItems| == |codes|
                  && forall i | 0 <= i < |codes| ::
                       var price := kb.prices[codes[i]];
                       built.value.lineItems[i] == LineItem(codes[i], kb.modules[codes[i]].name, price.setupFee,
                                                            price.monthlyFee, price.currency))
            && (forall c | built == Err(UnknownModule(c)) ::
                  || FirstUnknown(codes, kb.modules.Keys, c)
                  || ((forall d | d in codes :: d in kb.modules) && FirstUnknown(codes, kb.prices.Keys, c)))
            && (built == Err(EmptyBundle) <==> codes == [])
  {
    hide FiguresFor, Rounded;
  }

  /** Position i of a history is the last under its id. */
  ghost predicate LastAt(saved: seq<Offer>, id: string, i: nat) {
    && i < |saved| && saved[i].offerId == id
    && forall j | i < j < |saved| :: saved[j].offerId != id
  }

  /** The offers of a history by id, each as it was saved last. */
  ghost predicate LastSaved(offers: map<string, Offer>, saved: seq<Offer>) {
    && (forall i | 0 <= i < |saved| :: saved[i].offerId in offers)
    && (forall id | id in offers :: exists i: nat :: LastAt(saved, id, i) && offers[id] == saved[i])
  }

  /** No id was saved twice. */
  ghost predicate Distinct(saved: seq<Offer>) {
    forall i, j | 0 <= i < j < |saved| :: saved[i].offerId != saved[j].offerId
  }

  /** The ids stand in the order of the saves. */
  ghost predicate InSaveOrder(order: seq<string>, saved: seq<Offer>) {
    |order| == |saved| && forall i | 0 <= i < |order| :: order[i] == saved[i].offerId
  }

  /** Position i of a history is the last for a restaurant. */
  ghost predicate LatestAt(saved: seq<Offer>, restaurantId: string, i: nat) {
    && i < |saved| && saved[i].restaurantId == restaurantId
    && forall j | i < j < |saved| :: saved[j].restaurantId != restaurantId
  }

  lemma StoredAsSaved(offers: map<string, Offer>, saved: seq<Offer>)
    requires LastSaved(offers, saved) && Distinct(saved)
    ensures forall i | 0 <= i < |saved| :: saved[i].offerId in offers && offers[saved[i].offerId] == saved[i]
  {
    forall i | 0 <= i < |saved| ensures offers[saved[i].offerId] == saved[i] {
      var k: nat :| LastAt(saved, saved[i].offerId, k) && offers[saved[i].offerId] == saved[k];
    }
  }

  lemma StillLast(saved: seq<Offer>, offer: Offer, id: string, i: nat)
    requires LastAt(saved, id, i) && offer.offerId != id
    ensures LastAt(saved + [offer], id, i) && (saved + [offer])[i] == saved[i]
  {
  }

  lemma SaveIsLast(offers: map<string, Offer>, saved: seq<Offer>, offer: Offer)
    requires LastSaved(offers, saved)
    ensures LastSaved(offers[offer.offerId := offer], saved + [offer])
  {
    var offers', saved' := offers[offer.offerId := offer], saved + [offer];
    assert LastAt(saved', offer.offerId, |saved|);
    forall id | id in offers && id != offer.offerId
      ensures exists i: nat :: LastAt(saved', id, i) && offers'[id] == saved'[i]
    {
      var i: nat :| LastAt(saved, id, i) && offers[id] == saved[i];
      StillLast(saved, offer, id, i);
    }
  }

  lemma NewIdGoesLast(order: seq<string>, offers: map<string, Offer>, saved: seq<Offer>, offer: Offer)
    requires LastSaved(offers, saved) && (Distinct(saved) ==> InSaveOrder(order, saved))
    requires Distinct(saved + [offer])
    ensures offer.offerId !in offers && InSaveOrder(order + [offer.offerId], saved + [offer])
  {
    var saved' := saved + [offer];
    forall i, j | 0 <= i < j < |saved| ensures saved[i].offerId != saved[j].offerId {
      assert saved'[i].offerId != saved'[j].offerId;
    }
    forall i | 0 <= i < |saved| ensures saved[i].offerId != offer.offerId {
      assert saved'[i].offerId != saved'[|saved|].offerId;
    }
  }

  lemma LatestIsLast(order: seq<string>, offers: map<string, Offer>, saved: seq<Offer>, restaurantId: string, i: nat)
    requires LastSaved(offers, saved) && (Distinct(saved) ==> InSaveOrder(order, saved))
    requires forall id | id in order :: id in offers
    requires i < |order| && offers[order[i]].restaurantId == restaurantId
    requires forall j | i < j < |order| :: offers[order[j]].restaurantId != restaurantId
    ensures Distinct(saved) ==>
              LatestAt(saved, restaurantId, i) && saved[i] == offers[order[i]] && saved[i] in saved
  {
    if Distinct(saved) {
      StoredAsSaved(offers, saved);
    }
  }

  lemma NoneIsSaved(order: seq<string>, offers: map<string, Offer>, saved: seq<Offer>, restaurantId: string)
    requires LastSaved(offers, saved) && (Distinct(saved) ==> InSaveOrder(order, saved))
    requires forall id | id in order :: id in offers
    requires forall j | 0 <= j < |order| :: offers[order[j]].restaurantId != restaurantId
    ensures Distinct(saved) ==> forall o | o in saved :: o.restaurantId != restaurantId
  {
    if Distinct(saved) {
      StoredAsSaved(offers, saved);
    }
  }

  /** Offers by id, remembering the order in which ids were first saved. */
  class OfferRepository {
    var order: seq<string>
    var offers: map<string, Offer>
    ghost var saved: seq<Offer>  // every save, in order

    ghost predicate Valid()
      reads this
    {
      && (forall id :: id in order <==> id in offers)
      && (forall i, j | 0 <= i < j < |order| :: order[i] != order[j])
      && LastSaved(offers, saved)
      && (Distinct(saved) ==> InSaveOrder(order, saved))
    }

    constructor ()
      ensures Valid() && offers == map[] && order == [] && saved == []
    {
      order, offers, saved := [], map[], [];
    }

    method Save(offer: Offer)
      requires Valid()
      modifies this
      ensures Valid() && offers == old(offers)[offer.offerId := offer]
      ensures order == if offer.offerId in old(offers) then old(order) else old(order) + [offer.offerId]
      ensures saved == old(saved) + [offer]
    {
      hide LastSaved, Distinct, InSaveOrder;
      SaveIsLast(offers, saved, offer);
      if Distinct(saved + [offer]) {
        NewIdGoesLast(order, offers, saved, offer);
      }
      if offer.offerId !in offers {
        order := order + [offer.offerId];
      }
      offers := offers[offer.offerId := offer];
      saved := saved + [offer];
    }

    /** The offer that was last saved under the id, or none if none ever was. */
    method Get(id: string) returns (offer: Option<Offer>)
      requires Valid()
      ensures offer == None <==> forall o | o in saved :: o.offerId != id
      ensures offer.Some? ==> exists i: nat :: LastAt(saved, id, i) && saved[i] == offer.value
    {
      offer := if id in offers then Some(offers[id]) else None;
    }

    /**
     The offer of the restaurant whose id was first saved last; as long as no id is
     saved twice, that is the restaurant's most recently saved offer.
     */
    method LatestFor(restaurantId: string) returns (offer: Option<Offer>)
      requires Valid()
      ensures offer == None ==> forall id | id in offers :: offers[id].restaurantId != restaurantId
      ensures offer.Some? ==>
                exists i :: 0 <= i < |order| && offers[order[i]] == offer.value
                       && offer.value.restaurantId == restaurantId
                       && forall j | i < j < |order| :: offers[order[j]].restaurantId != restaurantId
      ensures Distinct(saved) ==>
                && (offer == None <==> forall o | o in saved :: o.restaurantId != restaurantId)
                && (offer.Some? ==> exists i: nat :: LatestAt(saved, restaurantId, i) && saved[i] == offer.value)
    {
      hide LastSaved, Distinct, InSaveOrder, LatestAt;
      var i := |order|;
      while i > 0
        invariant 0 <= i <= |order|
        invariant forall j | i <= j < |order| :: offers[order[j]].restaurantId != restaurantId
      {
        i := i - 1;
        if offers[order[i]].restaurantId == restaurantId {
          LatestIsLast(order, offers, saved, restaurantId, i);
          return Some(offers[order[i]]);
        }
      }
      NoneIsSaved(order, offers, saved, restaurantId);
      return None;
    }
  }

  class OfferService {
    const knowledge: Knowledge
    const engine: RoiEngine
    const repository: OfferRepository

    constructor (knowledge: Knowledge, engine: RoiEngine, repository: OfferRepository)
      ensures this.knowledge == knowledge && this.engine == engine && this.repository == repository
    {
      this.knowledge, this.engine, this.repository := knowledge, engine, repository;
    }

    /** Assemble and persist; an offer that cannot be built is not stored. */
    method BuildOffer(request: Request, offerId: string) returns (result: Result<Offer, BuildError>)
      requires repository.Valid()
      modifies repository
      ensures repository.Valid()
      ensures result == Assembled(knowledge, Terms(engine.horizonMonths, engine.assumptions), request, offerId)
      ensures repository.offers == if result.Ok? then old(repository.offers)[offerId := result.value]
                                   else old(repository.offers)
      ensures repository.saved == old(repository.saved) + if result.Ok? then [result.value] else []
      ensures repository.order == if result.Err? || offerId in old(repository.offers) then old(repository.order)
                                  else old(repository.order) + [offerId]
    {
      hide LastSaved, Distinct, InSaveOrder;
      var noModule := FirstMissing(request.codes, knowledge.modules.Keys);
      if noModule.Some? {
        return Err(UnknownModule(noModule.value));
      }
      var noPrice := FirstMissing(request.codes, knowledge.prices.Keys);
      if noPrice.Some? {
        return Err(UnknownModule(noPrice.value));
      }
      var modules := ModulesOf(knowledge, request.codes);
      var prices := PricesOf(knowledge, request.codes);
      var roi := engine.Calculate(request.metrics, modules, prices);
      if roi == None {
        return Err(EmptyBundle);
      }
      if |request.summary| > MAX_SUMMARY {
        return Err(SummaryTooLong);
      }
      var offer := Offer(offerId, request.metrics.restaurantId, request.summary, ItemsFor(modules, prices), roi.value);
      repository.Save(offer);
      result := Ok(offer);
    }
  }
}
