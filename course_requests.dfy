/**
 * The course-request service: drafts, listing details, payment, the
 * submission gate, approval (promotion to a published course) and
 * rejection, over the shared database.
 */
module CourseRequests {
  import opened Wrappers
  import opened Store
  import Pricing
  import Slug

  /** The create-request payload, with the fields the service reads. */
  datatype DraftInput = DraftInput(
    kind: Kind,
    category: Option<Category>,
    format: Option<Format>,
    delivery: Option<Delivery>,
    titleKa: string,
    titleEn: Option<string>,
    descriptionKa: string,
    descriptionEn: Option<string>,
    imageUrl: Option<string>,
    languageKa: Option<string>,
    languageEn: Option<string>,
    syllabusKa: Option<string>,
    syllabusEn: Option<string>,
    mentorKa: Option<string>,
    mentorEn: Option<string>,
    originalPrice: Option<int>,
    discountedPrice: Option<int>,
    date: Option<DateText>,
    location: Option<string>,
    startDate: Option<DateText>,
    videoUrls: Option<seq<string>>)

  /** JavaScript truthiness of an optional string: present and not empty. */
  predicate Truthy(s: Option<string>) {
    s.Some? && s.value != ""
  }

  // ---------------------------------------------------------------------
  // createDraft

  /** The delivery stored with a draft: the requested one (default LIVE) for a COURSE, else LIVE. */
  function DraftDelivery(dto: DraftInput): (d: Delivery)
    ensures dto.kind != COURSE ==> d == LIVE
    ensures dto.kind == COURSE && dto.delivery.None? ==> d == LIVE
    ensures dto.kind == COURSE && dto.delivery.Some? ==> d == dto.delivery.value
  {
    if dto.kind == COURSE then dto.delivery.GetOr(LIVE) else LIVE
  }

  /** The `requestVideos` rows for the given URLs, numbered from 1 in input order. */
  function NumberedVideos(urls: seq<string>): (vs: seq<RequestVideo>)
    ensures |vs| == |urls|
    ensures forall i :: 0 <= i < |vs| ==> vs[i].url == urls[i] && vs[i].order == i + 1
  {
    seq(|urls|, i requires 0 <= i < |urls| => RequestVideo(urls[i], i + 1))
  }

  /** The request videos of a draft: only for a COURSE delivered as VIDEO with a non-empty list. */
  function DraftVideos(dto: DraftInput): seq<RequestVideo>
  {
    if dto.kind == COURSE && DraftDelivery(dto) == VIDEO && dto.videoUrls.Some? && |dto.videoUrls.value| > 0
    then NumberedVideos(dto.videoUrls.value)
    else []
  }

  /** The pricing of a draft: computed when an original price is given, else the zero default. */
  function DraftPricing(dto: DraftInput): (r: Pricing.PricingResult)
    ensures r.Err? <==>
      && dto.originalPrice.Some?
      && (|| dto.originalPrice.value < 0
          || (dto.discountedPrice.Some?
              && (dto.discountedPrice.value < 0 || dto.discountedPrice.value > dto.originalPrice.value)))
    ensures r.Err? ==> r == Pricing.ComputePricing(dto.originalPrice.value, dto.discountedPrice)
    ensures r.Ok? ==> r.value.originalPrice == dto.originalPrice.GetOr(0)
    ensures r.Ok? ==> (r.value.discountedPrice.None? <==> r.value.discountPercent.None?)
  {
    if dto.originalPrice.Some?
    then Pricing.ComputePricing(dto.originalPrice.value, dto.discountedPrice)
    else Ok(Pricing.NoDiscount(0))
  }

  /** The record `createDraft` stores for `userId`, or the BadRequest a pricing error becomes. */
  function DraftRecord(userId: UserId, dto: DraftInput): (r: Outcome<CourseRequest>)
    ensures r.Err? <==> DraftPricing(dto).Err?
    ensures r.Err? ==> r.error == BadRequest(BadPricing(DraftPricing(dto).error))
    ensures r.Ok? ==>
      && r.value.status == DRAFT
      && r.value.creatorId == userId
      && r.value.kind == dto.kind
      && r.value.delivery == Some(DraftDelivery(dto))
      && PricingStored(r.value)
    // the classification and content fields are copied as given
    ensures r.Ok? ==>
      && r.value.category == dto.category && r.value.format == dto.format
      && r.value.titleKa == dto.titleKa && r.value.titleEn == dto.titleEn
      && r.value.descriptionKa == dto.descriptionKa && r.value.descriptionEn == dto.descriptionEn
      && r.value.imageUrl == dto.imageUrl
      && r.value.languageKa == dto.languageKa && r.value.languageEn == dto.languageEn
    // syllabus and mentor are kept for a COURSE only
    ensures r.Ok? && dto.kind == COURSE ==>
      && r.value.syllabusKa == dto.syllabusKa && r.value.syllabusEn == dto.syllabusEn
      && r.value.mentorKa == dto.mentorKa && r.value.mentorEn == dto.mentorEn
    ensures r.Ok? && dto.kind != COURSE ==>
      && r.value.syllabusKa.None? && r.value.syllabusEn.None?
      && r.value.mentorKa.None? && r.value.mentorEn.None?
    // scheduling and placement
    ensures r.Ok? ==> (r.value.date.Some? <==> dto.kind != COURSE && Truthy(dto.date))
    ensures r.Ok? ==> (r.value.startDate.Some? <==>
                         dto.kind == COURSE && DraftDelivery(dto) == LIVE && Truthy(dto.startDate))
    ensures r.Ok? ==> (r.value.location.Some? <==> dto.format == Some(ONSITE) && dto.location.Some?)
    ensures r.Ok? ==> r.value.date.Some? ==> r.value.date == dto.date
    ensures r.Ok? ==> r.value.startDate.Some? ==> r.value.startDate == dto.startDate
    ensures r.Ok? ==> r.value.location.Some? ==> r.value.location == dto.location
    // videos: only COURSE + VIDEO with URLs, numbered 1..n in input order
    ensures r.Ok? ==> (r.value.videos != [] <==>
      dto.kind == COURSE && DraftDelivery(dto) == VIDEO && dto.videoUrls.Some? && dto.videoUrls.value != [])
    ensures r.Ok? && r.value.videos != [] ==>
      && |r.value.videos| == |dto.videoUrls.value|
      && forall i :: 0 <= i < |r.value.videos| ==>
           r.value.videos[i] == RequestVideo(dto.videoUrls.value[i], i + 1)
    // pricing: stored as given when there is no original price, else as computed
    ensures r.Ok? ==> r.value.originalPrice == dto.originalPrice
    ensures r.Ok? && dto.originalPrice.None? ==>
      r.value.discountedPrice.None? && r.value.discountPercent.None?
    ensures r.Ok? && dto.originalPrice.Some? ==>
      Pricing.ComputePricing(dto.originalPrice.value, dto.discountedPrice)
        == Ok(Pricing.PricingComputed(dto.originalPrice.value, r.value.discountedPrice, r.value.discountPercent))
    // what a new draft does not have yet
    ensures r.Ok? ==>
      && r.value.listingDays.None? && r.value.listingFee.None?
      && r.value.endDate.None? && r.value.materials == []
  {
    var pricing := DraftPricing(dto);
    if pricing.Err? then Err(BadRequest(BadPricing(pricing.error)))
    else
      var delivery := DraftDelivery(dto);
      var stored := dto.originalPrice.Some?;
      assert stored ==> Pricing.ComputePricing(dto.originalPrice.value, pricing.value.discountedPrice) == pricing by {
        if stored { Pricing.Idempotent(dto.originalPrice.value, dto.discountedPrice); }
      }
      Ok(CourseRequest(
        creatorId := userId,
        kind := dto.kind,
        category := dto.category,
        format := dto.format,
        delivery := Some(delivery),
        titleKa := dto.titleKa,
        titleEn := dto.titleEn,
        descriptionKa := dto.descriptionKa,
        descriptionEn := dto.descriptionEn,
        imageUrl := dto.imageUrl,
        languageKa := dto.languageKa,
        languageEn := dto.languageEn,
        syllabusKa := if dto.kind == COURSE then dto.syllabusKa else None,
        syllabusEn := if dto.kind == COURSE then dto.syllabusEn else None,
        mentorKa := if dto.kind == COURSE then dto.mentorKa else None,
        mentorEn := if dto.kind == COURSE then dto.mentorEn else None,
        originalPrice := dto.originalPrice,
        discountedPrice := if stored then pricing.value.discountedPrice else None,
        discountPercent := if stored then pricing.value.discountPercent else None,
        date := if dto.kind != COURSE && Truthy(dto.date) then dto.date else None,
        location := if dto.format == Some(ONSITE) then dto.location else None,
        startDate := if dto.kind == COURSE && delivery == LIVE && Truthy(dto.startDate) then dto.startDate else None,
        endDate := None,
        listingDays := None,
        listingFee := None,
        videos := DraftVideos(dto),
        materials := [],
        status := DRAFT))
  }

  /** `createDraft`: store the derived record under a new id. */
  method CreateDraft(db: Db, userId: UserId, dto: DraftInput) returns (r: Outcome<RequestId>)
    requires db.Valid()
    modifies db
    ensures db.Valid()
    ensures db.courses == old(db.courses)
    ensures r.Ok? <==> DraftRecord(userId, dto).Ok?
    ensures r.Err? ==> r.error == DraftRecord(userId, dto).error
    ensures r.Ok? ==>
      && r.value !in old(db.requests)
      && db.requests == old(db.requests)[r.value := DraftRecord(userId, dto).value]
    ensures r.Err? ==> db.requests == old(db.requests) && db.nextRequestId == old(db.nextRequestId)
  {
    var record := DraftRecord(userId, dto);
    if record.Err? {
      return Err(record.error);
    }
    var id := db.nextRequestId;
    db.requests := db.requests[id := record.value];
    db.nextRequestId := id + 1;
    r := Ok(id);
  }

  // ---------------------------------------------------------------------
  // Lookups shared by the creator's actions

  /** The lookup and ownership check: NotFound first, then Forbidden for another user. */
  function Owned(requests: map<RequestId, CourseRequest>, id: RequestId, userId: UserId): (r: Outcome<CourseRequest>)
    ensures r.Ok? <==> id in requests && requests[id].creatorId == userId
    ensures r.Ok? ==> r.value == requests[id]
    ensures r == Err(NotFound) <==> id !in requests
    ensures r == Err(Forbidden(NotCreator)) <==> id in requests && requests[id].creatorId != userId
  {
    if id !in requests then Err(NotFound)
    else if requests[id].creatorId != userId then Err(Forbidden(NotCreator))
    else Ok(requests[id])
  }

  /** `getPendingRequests`: the requests waiting for approval. */
  function PendingRequests(requests: map<RequestId, CourseRequest>): (pending: map<RequestId, CourseRequest>)
    ensures forall id :: id in pending <==> id in requests && requests[id].status == PENDING_APPROVAL
    ensures forall id :: id in pending ==> pending[id] == requests[id]
  {
    map id | id in requests && requests[id].status == PENDING_APPROVAL :: requests[id]
  }

  // ---------------------------------------------------------------------
  // setDetails, markAsPaid

  /**
   * `setDetails`: after the lookup, ownership, `listingDays >= 1` and
   * `listingFee >= 0` checks, store both and move to PENDING_PAYMENT,
   * whatever the status was.
   */
  method SetDetails(db: Db, id: RequestId, userId: UserId, listingDays: int, listingFee: int)
    returns (r: Outcome<CourseRequest>)
    requires db.Valid()
    modifies db
    ensures db.Valid()
    ensures db.courses == old(db.courses) && db.nextRequestId == old(db.nextRequestId)
    ensures Owned(old(db.requests), id, userId).Err? ==> r == Err(Owned(old(db.requests), id, userId).error)
    ensures Owned(old(db.requests), id, userId).Ok? && listingDays < 1 ==>
      r == Err(BadRequest(ListingDaysBelowOne))
    ensures Owned(old(db.requests), id, userId).Ok? && listingDays >= 1 && listingFee < 0 ==>
      r == Err(BadRequest(ListingFeeNegative))
    ensures r.Ok? <==> Owned(old(db.requests), id, userId).Ok? && listingDays >= 1 && listingFee >= 0
    ensures r.Ok? ==>
      && r.value == old(db.requests)[id].(listingDays := Some(listingDays), listingFee := Some(listingFee),
                                          status := PENDING_PAYMENT)
      && db.requests == old(db.requests)[id := r.value]
    ensures r.Err? ==> db.requests == old(db.requests)
  {
    var found := Owned(db.requests, id, userId);
    if found.Err? {
      return Err(found.error);
    }
    if listingDays < 1 {
      return Err(BadRequest(ListingDaysBelowOne));
    }
    if listingFee < 0 {
      return Err(BadRequest(ListingFeeNegative));
    }
    var updated := found.value.(listingDays := Some(listingDays), listingFee := Some(listingFee),
                                status := PENDING_PAYMENT);
    db.requests := db.requests[id := updated];
    r := Ok(updated);
  }

  /** `markAsPaid`: after the lookup and ownership checks only, the status becomes PAID. */
  method MarkAsPaid(db: Db, id: RequestId, userId: UserId) returns (r: Outcome<CourseRequest>)
    requires db.Valid()
    modifies db
    ensures db.Valid()
    ensures db.courses == old(db.courses) && db.nextRequestId == old(db.nextRequestId)
    ensures r.Ok? <==> Owned(old(db.requests), id, userId).Ok?
    ensures r.Err? ==> r.error == Owned(old(db.requests), id, userId).error && db.requests == old(db.requests)
    ensures r.Ok? ==>
      && r.value == old(db.requests)[id].(status := PAID)
      && db.requests == old(db.requests)[id := r.value]
  {
    var found := Owned(db.requests, id, userId);
    if found.Err? {
      return Err(found.error);
    }
    var updated := found.value.(status := PAID);
    db.requests := db.requests[id := updated];
    r := Ok(updated);
  }

  // ---------------------------------------------------------------------
  // submitForApproval

  /** The checks every kind passes first: category, format and a Georgian language. */
  predicate GeneralDetails(q: CourseRequest) {
    q.category.Some? && q.format.Some? && Truthy(q.languageKa)
  }

  /** A COURSE past the general checks with a Georgian syllabus. */
  predicate CourseContent(q: CourseRequest) {
    GeneralDetails(q) && q.kind == COURSE && Truthy(q.syllabusKa)
  }

  /** The submission checks in the order they are made; `None` when all pass. */
  function SubmissionDenial(q: CourseRequest): (d: Option<Denial>)
    ensures d.None? <==> Submittable(q)
    // each denial exactly when every earlier check passes and its own fails
    ensures d == Some(CategoryAndFormatRequired) <==> q.category.None? || q.format.None?
    ensures d == Some(LanguageRequired) <==>
      q.category.Some? && q.format.Some? && !Truthy(q.languageKa)
    ensures d == Some(SyllabusRequired) <==>
      GeneralDetails(q) && q.kind == COURSE && !Truthy(q.syllabusKa)
    ensures d == Some(DeliveryRequired) <==> CourseContent(q) && q.delivery.None?
    ensures d == Some(StartDateRequired) <==>
      CourseContent(q) && q.delivery == Some(LIVE) && q.startDate.None?
    ensures d == Some(VideoRequired) <==>
      CourseContent(q) && q.delivery == Some(VIDEO) && |q.videos| == 0
    ensures d == Some(TooManyVideos) <==>
      CourseContent(q) && q.delivery == Some(VIDEO) && |q.videos| > 25
    ensures d == Some(DetailsRequired) <==>
      && CourseContent(q) && q.delivery.Some?
      && (q.delivery.value == LIVE ==> q.startDate.Some?)
      && (q.delivery.value == VIDEO ==> 1 <= |q.videos| <= 25)
      && (q.listingDays.None? || q.listingDays == Some(0) || q.listingFee.None?)
    ensures d == Some(DateRequired) <==> GeneralDetails(q) && q.kind != COURSE && q.date.None?
    ensures d.Some? && q.kind != COURSE ==>
      d.value in {CategoryAndFormatRequired, LanguageRequired, DateRequired}
  {
    if q.category.None? || q.format.None? then Some(CategoryAndFormatRequired)
    else if !Truthy(q.languageKa) then Some(LanguageRequired)
    else if q.kind == COURSE then
      if !Truthy(q.syllabusKa) then Some(SyllabusRequired)
      else if q.delivery.None? then Some(DeliveryRequired)
      else if q.delivery == Some(LIVE) && q.startDate.None? then Some(StartDateRequired)
      else if q.delivery == Some(VIDEO) && |q.videos| == 0 then Some(VideoRequired)
      else if q.delivery == Some(VIDEO) && |q.videos| > 25 then Some(TooManyVideos)
      else if q.listingDays.None? || q.listingDays == Some(0) || q.listingFee.None? then Some(DetailsRequired)
      else None
    else if q.date.None? then Some(DateRequired)
    else None
  }

  /**
   * What a request must have to be submitted: category, format and a
   * non-empty Georgian language; a COURSE also a syllabus, a delivery, a
   * start date when LIVE, 1 to 25 videos when VIDEO, non-zero listing days
   * and a listing fee; any other kind a date. Status and payment play no part.
   */
  predicate Submittable(q: CourseRequest) {
    && q.category.Some? && q.format.Some?
    && Truthy(q.languageKa)
    && (q.kind == COURSE ==>
         && Truthy(q.syllabusKa)
         && q.delivery.Some?
         && (q.delivery.value == LIVE ==> q.startDate.Some?)
         && (q.delivery.value == VIDEO ==> 1 <= |q.videos| <= 25)
         && q.listingDays.Some? && q.listingDays.value != 0
         && q.listingFee.Some?)
    && (q.kind != COURSE ==> q.date.Some?)
  }

  /** The gate does not look at the status: a request that was never paid can be submitted. */
  lemma GateIgnoresStatus(q: CourseRequest, s: RequestStatus)
    ensures SubmissionDenial(q.(status := s)) == SubmissionDenial(q)
  {
  }

  /** `submitForApproval`: lookup, ownership, the gate, then PENDING_APPROVAL. */
  method SubmitForApproval(db: Db, id: RequestId, userId: UserId) returns (r: Outcome<CourseRequest>)
    requires db.Valid()
    modifies db
    ensures db.Valid()
    ensures db.courses == old(db.courses) && db.nextRequestId == old(db.nextRequestId)
    ensures Owned(old(db.requests), id, userId).Err? ==> r == Err(Owned(old(db.requests), id, userId).error)
    ensures Owned(old(db.requests), id, userId).Ok? && SubmissionDenial(old(db.requests)[id]).Some? ==>
      r == Err(Forbidden(SubmissionDenial(old(db.requests)[id]).value))
    ensures r.Ok? <==> Owned(old(db.requests), id, userId).Ok? && Submittable(old(db.requests)[id])
    ensures r.Ok? ==>
      && r.value == old(db.requests)[id].(status := PENDING_APPROVAL)
      && db.requests == old(db.requests)[id := r.value]
      && id in PendingRequests(db.requests)
    ensures r.Err? ==> db.requests == old(db.requests)
  {
    var found := Owned(db.requests, id, userId);
    if found.Err? {
      return Err(found.error);
    }
    var denial := SubmissionDenial(found.value);
    if denial.Some? {
      return Err(Forbidden(denial.value));
    }
    var updated := found.value.(status := PENDING_APPROVAL);
    db.requests := db.requests[id := updated];
    r := Ok(updated);
  }

  // ---------------------------------------------------------------------
  // approve, reject

  /** The listing end: `listingDays` days after `now` when positive, else none. */
  function ListingEnd(listingDays: Option<int>, now: Millis): (end: Option<Millis>)
    ensures end.Some? <==> listingDays.Some? && listingDays.value > 0
    ensures end.Some? ==> end.value == now + listingDays.value * DAY && end.value > now
  {
    if listingDays.Some? && listingDays.value > 0 then Some(now + listingDays.value * DAY) else None
  }

  /**
   * The pricing approval publishes: recomputed from the stored prices. For a
   * record that keeps the store invariant it succeeds and reproduces the
   * stored discount.
   */
  function PublishedPricing(q: CourseRequest): (r: Pricing.PricingResult)
    ensures r.Ok? ==> r.value.originalPrice == q.originalPrice.GetOr(0)
    ensures PricingStored(q) ==>
      && r.Ok?
      && r.value.discountedPrice == q.discountedPrice
      && r.value.discountPercent == q.discountPercent
  {
    if q.originalPrice.Some?
    then Pricing.ComputePricing(q.originalPrice.value, q.discountedPrice)
    else Ok(Pricing.NoDiscount(0))
  }

  function VideoUrls(vs: seq<RequestVideo>): (urls: seq<string>)
    ensures |urls| == |vs| && forall i :: 0 <= i < |vs| ==> urls[i] == vs[i].url
  {
    seq(|vs|, i requires 0 <= i < |vs| => vs[i].url)
  }

  /** The language name a published course gets when the request has none. */
  const GeorgianLanguage: string := "ქართული"

  /** The course approval creates from request `q` at time `now`. */
  function PublishedCourse(t: Slug.CharTables, q: CourseRequest, now: Millis): (r: Outcome<Course>)
    ensures r.Err? <==> PublishedPricing(q).Err?
    ensures PricingStored(q) ==> r.Ok?
    ensures r.Ok? ==>
      && r.value.status == ACTIVE
      && r.value.listingEndsAt == ListingEnd(q.listingDays, now)
      && r.value.slug == Slug.MakeSlug(t, q.titleEn.GetOr(q.titleKa), now)
      && r.value.kind == q.kind && r.value.creatorId == Some(q.creatorId)
      && r.value.delivery == Some(q.delivery.GetOr(LIVE))
      && r.value.category == q.category && r.value.format == q.format
      && r.value.titleKa == q.titleKa && r.value.titleEn == q.titleEn
      && r.value.descriptionKa == q.descriptionKa && r.value.descriptionEn == q.descriptionEn
      && r.value.imageUrl == q.imageUrl.GetOr("")
      && r.value.altTextKa == q.titleKa && r.value.altTextEn == Some(q.titleEn.GetOr(q.titleKa))
      && r.value.languageKa == q.languageKa.GetOr(GeorgianLanguage) && r.value.languageEn == q.languageEn
      && r.value.location == q.location
      && r.value.startDate == q.startDate && r.value.endDate == q.endDate && r.value.date == q.date
      && r.value.syllabusKa == q.syllabusKa && r.value.syllabusEn == q.syllabusEn
      && r.value.mentorKa == q.mentorKa && r.value.mentorEn == q.mentorEn
      && r.value.materials == q.materials
      && r.value.videos == (if q.delivery == Some(VIDEO) then VideoUrls(q.videos) else [])
      && r.value.originalPrice == q.originalPrice.GetOr(0)
      && PublishedPricing(q) == Ok(Pricing.PricingComputed(r.value.originalPrice, r.value.discountedPrice,
                                                            r.value.discountPercent))
    // no drift: the published discount is the one stored with the request
    ensures r.Ok? && PricingStored(q) ==>
      r.value.discountedPrice == q.discountedPrice && r.value.discountPercent == q.discountPercent
  {
    var pricing := PublishedPricing(q);
    if pricing.Err? then Err(Uncaught(pricing.error))
    else
      var onsite := q.format == Some(ONSITE);
      Ok(Course(
        slug := Slug.MakeSlug(t, q.titleEn.GetOr(q.titleKa), now),
        kind := q.kind,
        creatorId := Some(q.creatorId),
        category := q.category,
        format := q.format,
        delivery := Some(q.delivery.GetOr(LIVE)),
        titleKa := q.titleKa,
        titleEn := q.titleEn,
        descriptionKa := q.descriptionKa,
        descriptionEn := q.descriptionEn,
        imageUrl := q.imageUrl.GetOr(""),
        altTextKa := q.titleKa,
        altTextEn := Some(q.titleEn.GetOr(q.titleKa)),
        buttonKa := "დარეგისტრირება",
        buttonEn := Some("Register"),
        formatKa := if onsite then "ადგილზე" else "ონლაინ",
        formatEn := Some(if onsite then "On-site" else "Online"),
        languageKa := q.languageKa.GetOr(GeorgianLanguage),
        languageEn := q.languageEn,
        location := q.location,
        startDate := q.startDate,
        endDate := q.endDate,
        date := q.date,
        listingEndsAt := ListingEnd(q.listingDays, now),
        status := ACTIVE,
        syllabusKa := q.syllabusKa,
        syllabusEn := q.syllabusEn,
        mentorKa := q.mentorKa,
        mentorEn := q.mentorEn,
        originalPrice := q.originalPrice.GetOr(0),
        discountedPrice := pricing.value.discountedPrice,
        discountPercent := pricing.value.discountPercent,
        videos := if q.delivery == Some(VIDEO) then VideoUrls(q.videos) else [],
        materials := q.materials))
  }

  /**
   * `approve`, as one atomic step: the request must be PENDING_APPROVAL;
   * the published course is appended and the request becomes APPROVED.
   */
  method Approve(db: Db, t: Slug.CharTables, id: RequestId, now: Millis) returns (r: Outcome<Course>)
    requires db.Valid()
    modifies db
    ensures db.Valid()
    ensures db.nextRequestId == old(db.nextRequestId)
    ensures id !in old(db.requests) ==> r == Err(NotFound)
    ensures id in old(db.requests) && old(db.requests)[id].status != PENDING_APPROVAL ==>
      r == Err(Forbidden(NotPendingApproval))
    ensures r.Ok? <==> id in old(db.requests) && old(db.requests)[id].status == PENDING_APPROVAL
    ensures r.Ok? ==>
      && r.value == PublishedCourse(t, old(db.requests)[id], now).value
      && db.courses == old(db.courses) + [r.value]
      && db.requests == old(db.requests)[id := old(db.requests)[id].(status := APPROVED)]
      && id !in PendingRequests(db.requests)
    ensures r.Err? ==> db.requests == old(db.requests) && db.courses == old(db.courses)
  {
    if id !in db.requests {
      return Err(NotFound);
    }
    var q := db.requests[id];
    if q.status != PENDING_APPROVAL {
      return Err(Forbidden(NotPendingApproval));
    }
    // the store invariant rules out the uncaught pricing error
    var course := PublishedCourse(t, q, now);
    assert course.Ok?;
    db.courses := db.courses + [course.value];
    db.requests := db.requests[id := q.(status := APPROVED)];
    r := course;
  }

  /** `reject`: after the lookup only, the status becomes REJECTED, from any status. */
  method Reject(db: Db, id: RequestId) returns (r: Outcome<CourseRequest>)
    requires db.Valid()
    modifies db
    ensures db.Valid()
    ensures db.courses == old(db.courses) && db.nextRequestId == old(db.nextRequestId)
    ensures r.Ok? <==> id in old(db.requests)
    ensures r.Err? ==> r.error == NotFound && db.requests == old(db.requests)
    ensures r.Ok? ==>
      && r.value == old(db.requests)[id].(status := REJECTED)
      && db.requests == old(db.requests)[id := r.value]
  {
    if id !in db.requests {
      return Err(NotFound);
    }
    var updated := db.requests[id].(status := REJECTED);
    db.requests := db.requests[id := updated];
    r := Ok(updated);
  }
}
