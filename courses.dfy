/**
 * The course service: admin creation and extension of listings, the
 * periodic status sweep, and the public visibility filter.
 */
module Courses {
  import opened Wrappers
  import opened Store
  import Pricing

  /** The create-course payload, with the fields the service reads. */
  datatype CourseInput = CourseInput(
    slug: string,
    kind: Option<Kind>,
    originalPrice: int,
    discountedPrice: Option<int>,
    imageUrl: string,
    titleKa: string,
    descriptionKa: string,
    altTextKa: string,
    buttonKa: string,
    formatKa: string,
    languageKa: string,
    titleEn: Option<string>,
    descriptionEn: Option<string>,
    altTextEn: Option<string>,
    buttonEn: Option<string>,
    formatEn: Option<string>,
    languageEn: Option<string>,
    duration: int)

  // ---------------------------------------------------------------------
  // createCourse

  /** The course `createCourse` stores at time `now`, or the BadRequest a pricing error becomes. */
  function NewCourse(dto: CourseInput, now: Millis): (r: Outcome<Course>)
    ensures r.Err? <==>
      || dto.originalPrice < 0
      || (dto.discountedPrice.Some?
          && (dto.discountedPrice.value < 0 || dto.discountedPrice.value > dto.originalPrice))
    ensures r.Err? ==>
      r.error == BadRequest(BadPricing(Pricing.ComputePricing(dto.originalPrice, dto.discountedPrice).error))
    ensures r.Ok? ==>
      && Pricing.ComputePricing(dto.originalPrice, dto.discountedPrice)
           == Ok(Pricing.PricingComputed(r.value.originalPrice, r.value.discountedPrice, r.value.discountPercent))
      && r.value.listingEndsAt == Some(now + dto.duration * DAY)
      && r.value.status == ACTIVE
      && r.value.slug == dto.slug
      && r.value.kind == dto.kind.GetOr(COURSE)
      && r.value.titleKa == dto.titleKa && r.value.titleEn == dto.titleEn
      && r.value.videos == [] && r.value.materials == []
  {
    var pricing := Pricing.ComputePricing(dto.originalPrice, dto.discountedPrice);
    if pricing.Err? then Err(BadRequest(BadPricing(pricing.error)))
    else
      Ok(Course(
        slug := dto.slug,
        kind := dto.kind.GetOr(COURSE),
        creatorId := None,
        category := None,
        format := None,
        delivery := None,
        titleKa := dto.titleKa,
        titleEn := dto.titleEn,
        descriptionKa := dto.descriptionKa,
        descriptionEn := dto.descriptionEn,
        imageUrl := dto.imageUrl,
        altTextKa := dto.altTextKa,
        altTextEn := dto.altTextEn,
        buttonKa := dto.buttonKa,
        buttonEn := dto.buttonEn,
        formatKa := dto.formatKa,
        formatEn := dto.formatEn,
        languageKa := dto.languageKa,
        languageEn := dto.languageEn,
        location := None,
        startDate := None,
        endDate := None,
        date := None,
        listingEndsAt := Some(now + dto.duration * DAY),
        status := ACTIVE,
        syllabusKa := None,
        syllabusEn := None,
        mentorKa := None,
        mentorEn := None,
        originalPrice := pricing.value.originalPrice,
        discountedPrice := pricing.value.discountedPrice,
        discountPercent := pricing.value.discountPercent,
        videos := [],
        materials := []))
  }

  /** `createCourse`: the new course is appended; its id is the new number of courses. */
  method CreateCourse(db: Db, dto: CourseInput, now: Millis) returns (r: Outcome<Course>)
    requires db.Valid()
    modifies db
    ensures db.Valid()
    ensures db.requests == old(db.requests) && db.nextRequestId == old(db.nextRequestId)
    ensures r == NewCourse(dto, now)
    ensures db.courses == if r.Ok? then old(db.courses) + [r.value] else old(db.courses)
  {
    r := NewCourse(dto, now);
    if r.Ok? {
      db.courses := db.courses + [r.value];
    }
  }

  // ---------------------------------------------------------------------
  // extendCourse

  /** The extended listing: `duration` days added to its end (or to `now` without one), ACTIVE again. */
  function Extended(c: Course, duration: int, now: Millis): Course {
    c.(listingEndsAt := Some(c.listingEndsAt.GetOr(now) + duration * DAY), status := ACTIVE)
  }

  /** `extendCourse`: NotFound for an unknown id, else the listing is extended in place. */
  method ExtendCourse(db: Db, id: int, duration: int, now: Millis) returns (r: Outcome<Course>)
    requires db.Valid()
    modifies db
    ensures db.Valid()
    ensures db.requests == old(db.requests) && db.nextRequestId == old(db.nextRequestId)
    ensures r.Err? <==> !(1 <= id <= |old(db.courses)|)
    ensures r.Err? ==> r.error == NotFound && db.courses == old(db.courses)
    ensures r.Ok? ==>
      && r.value == Extended(old(db.courses)[id - 1], duration, now)
      && db.courses == old(db.courses)[id - 1 := r.value]
  {
    if !(1 <= id <= |db.courses|) {
      return Err(NotFound);
    }
    var extended := Extended(db.courses[id - 1], duration, now);
    db.courses := db.courses[id - 1 := extended];
    r := Ok(extended);
  }

  /** The new end lies `duration` days after the old end, or after `now` when there was none. */
  lemma ExtendedEnd(c: Course, duration: int, now: Millis)
    ensures Extended(c, duration, now).status == ACTIVE
    ensures c.listingEndsAt.Some? ==> Extended(c, duration, now).listingEndsAt.value == c.listingEndsAt.value + duration * DAY
    ensures c.listingEndsAt.None? ==> Extended(c, duration, now).listingEndsAt == Some(now + duration * DAY)
    ensures Extended(c, duration, now) == c.(listingEndsAt := Extended(c, duration, now).listingEndsAt,
                                             status := ACTIVE)
  {
  }

  // ---------------------------------------------------------------------
  // updateCourseStatuses

  /** The first pass's filter: the end is after `now` and at most 24 hours away. */
  predicate EndsWithinDay(c: Course, now: Millis) {
    c.listingEndsAt.Some? && now < c.listingEndsAt.value <= now + 24 * HOUR
  }

  /** The second pass's filter: the end is at or before `now`. */
  predicate EndPassed(c: Course, now: Millis) {
    c.listingEndsAt.Some? && c.listingEndsAt.value <= now
  }

  function MarkExpiring(c: Course, now: Millis): Course {
    if c.status == ACTIVE && EndsWithinDay(c, now) then c.(status := EXPIRING) else c
  }

  function MarkExpired(c: Course, now: Millis): Course {
    if c.status == EXPIRING && EndPassed(c, now) then c.(status := EXPIRED) else c
  }

  /** The first bulk update over all listings. */
  function ExpiringPass(cs: seq<Course>, now: Millis): (r: seq<Course>)
    ensures |r| == |cs| && forall i :: 0 <= i < |cs| ==> r[i] == MarkExpiring(cs[i], now)
  {
    seq(|cs|, i requires 0 <= i < |cs| => MarkExpiring(cs[i], now))
  }

  /** The second bulk update over all listings. */
  function ExpiredPass(cs: seq<Course>, now: Millis): (r: seq<Course>)
    ensures |r| == |cs| && forall i :: 0 <= i < |cs| ==> r[i] == MarkExpired(cs[i], now)
  {
    seq(|cs|, i requires 0 <= i < |cs| => MarkExpired(cs[i], now))
  }

  /** One sweep: the second pass applied after the first. */
  function Sweep(cs: seq<Course>, now: Millis): seq<Course> {
    ExpiredPass(ExpiringPass(cs, now), now)
  }

  /** What one sweep does to one listing. */
  function Swept(c: Course, now: Millis): Course {
    MarkExpired(MarkExpiring(c, now), now)
  }

  /** The sweep treats each listing on its own. */
  lemma SweepPointwise(cs: seq<Course>, now: Millis)
    ensures |Sweep(cs, now)| == |cs|
    ensures forall i :: 0 <= i < |cs| ==> Sweep(cs, now)[i] == Swept(cs[i], now)
  {
  }

  /** `updateCourseStatuses` at time `now`: the two bulk updates, one after the other. */
  method UpdateCourseStatuses(db: Db, now: Millis)
    requires db.Valid()
    modifies db
    ensures db.Valid()
    ensures db.requests == old(db.requests) && db.nextRequestId == old(db.nextRequestId)
    ensures db.courses == Sweep(old(db.courses), now)
  {
    ghost var before := db.courses;
    var i := 0;
    while i < |db.courses|
      invariant 0 <= i <= |db.courses| == |before|
      invariant forall k :: 0 <= k < i ==> db.courses[k] == MarkExpiring(before[k], now)
      invariant forall k :: i <= k < |before| ==> db.courses[k] == before[k]
      invariant db.requests == old(db.requests) && db.nextRequestId == old(db.nextRequestId)
    {
      var c := db.courses[i];
      if c.status == ACTIVE && c.listingEndsAt.Some? && now < c.listingEndsAt.value <= now + 24 * HOUR {
        db.courses := db.courses[i := c.(status := EXPIRING)];
      }
      i := i + 1;
    }
    assert db.courses == ExpiringPass(before, now);
    ghost var middle := db.courses;
    i := 0;
    while i < |db.courses|
      invariant 0 <= i <= |db.courses| == |middle|
      invariant forall k :: 0 <= k < i ==> db.courses[k] == MarkExpired(middle[k], now)
      invariant forall k :: i <= k < |middle| ==> db.courses[k] == middle[k]
      invariant db.requests == old(db.requests) && db.nextRequestId == old(db.nextRequestId)
    {
      var c := db.courses[i];
      if c.status == EXPIRING && c.listingEndsAt.Some? && c.listingEndsAt.value <= now {
        db.courses := db.courses[i := c.(status := EXPIRED)];
      }
      i := i + 1;
    }
    assert db.courses == ExpiredPass(middle, now);
  }

  /** Exactly the ACTIVE listings ending within the next 24 hours become EXPIRING. */
  lemma SweepMarksExpiring(c: Course, now: Millis)
    ensures c.status != EXPIRING && Swept(c, now).status == EXPIRING
      <==> c.status == ACTIVE && EndsWithinDay(c, now)
    ensures Swept(c, now).status == EXPIRING
      <==> (c.status == ACTIVE && EndsWithinDay(c, now)) || (c.status == EXPIRING && !EndPassed(c, now))
  {
  }

  /** Exactly the EXPIRING listings whose end has passed become EXPIRED, old or new. */
  lemma SweepMarksExpired(c: Course, now: Millis)
    ensures c.status != EXPIRED && Swept(c, now).status == EXPIRED
      <==> c.status == EXPIRING && EndPassed(c, now)
  {
  }

  /** A listing moved to EXPIRING in a run is not also moved to EXPIRED in that run. */
  lemma SweepNoDoubleStep(c: Course, now: Millis)
    requires c.status == ACTIVE
    ensures Swept(c, now).status != EXPIRED
  {
  }

  /** Sweeping again at the same time changes nothing. */
  lemma SweepIdempotent(cs: seq<Course>, now: Millis)
    ensures Sweep(Sweep(cs, now), now) == Sweep(cs, now)
  {
    SweepPointwise(cs, now);
    SweepPointwise(Sweep(cs, now), now);
  }

  /** Only the status changes, only along ACTIVE, EXPIRING, EXPIRED, and ARCHIVED stays ARCHIVED. */
  lemma SweepChangesOnlyStatus(c: Course, now: Millis)
    ensures Swept(c, now) == c.(status := Swept(c, now).status)
    ensures Rank(c.status) <= Rank(Swept(c, now).status)
    ensures Swept(c, now).status == ARCHIVED <==> c.status == ARCHIVED
  {
  }

  /**
   * The order the sweep moves statuses along: ACTIVE, EXPIRING, EXPIRED.
   * ARCHIVED is ranked last; the sweep never enters or leaves it.
   */
  function Rank(s: CourseStatus): nat {
    match s
    case ACTIVE => 0
    case EXPIRING => 1
    case EXPIRED => 2
    case ARCHIVED => 3
  }

  /**
   * Left alone by the sweep: listings without an end, EXPIRED or ARCHIVED
   * ones, and ACTIVE ones whose end has already passed.
   */
  lemma SweepLeavesAlone(c: Course, now: Millis)
    requires || c.listingEndsAt.None?
             || c.status == EXPIRED || c.status == ARCHIVED
             || (c.status == ACTIVE && EndPassed(c, now))
    ensures Swept(c, now) == c
  {
  }

  /** A listing ending 23 hours from now becomes EXPIRING, then EXPIRED once its end has passed. */
  lemma SweepScenario(c: Course, now: Millis, later: Millis)
    requires c.status == ACTIVE && c.listingEndsAt == Some(now + 23 * HOUR)
    requires later >= now + 23 * HOUR
    ensures Swept(c, now).status == EXPIRING
    ensures Swept(Swept(c, now), later).status == EXPIRED
  {
  }

  // ---------------------------------------------------------------------
  // getPublicCourses

  /** ACTIVE or EXPIRING, of the requested kind if one is given, with an English title for "en". */
  predicate IsPublic(c: Course, kind: Option<Kind>, locale: string) {
    && (c.status == ACTIVE || c.status == EXPIRING)
    && (kind.Some? ==> c.kind == kind.value)
    && (locale == "en" ==> c.titleEn.Some?)
  }

  /** `getPublicCourses`: the public listings, in store order. */
  function PublicCourses(cs: seq<Course>, kind: Option<Kind>, locale: string): (r: seq<Course>)
    ensures forall c :: c in r <==> c in cs && IsPublic(c, kind, locale)
    ensures forall c :: multiset(r)[c] == if IsPublic(c, kind, locale) then multiset(cs)[c] else 0
    ensures |r| <= |cs|
  {
    if cs == [] then []
    else
      var rest := PublicCourses(cs[1..], kind, locale);
      assert cs == [cs[0]] + cs[1..];
      if IsPublic(cs[0], kind, locale) then [cs[0]] + rest else rest
  }

  /**
   * Extending a listing by fewer days than it has been over leaves it
   * ACTIVE with its end already past: no sweep moves it, and it stays public.
   */
  lemma ExtendedPastDueStaysPublic(c: Course, duration: int, now: Millis, kind: Option<Kind>, locale: string)
    requires c.listingEndsAt.Some? && c.listingEndsAt.value + duration * DAY <= now
    requires (kind.Some? ==> c.kind == kind.value) && (locale == "en" ==> c.titleEn.Some?)
    ensures var e := Extended(c, duration, now);
      && Swept(e, now) == e
      && PublicCourses(Sweep([e], now), kind, locale) == [e]
  {
    var e := Extended(c, duration, now);
    SweepPointwise([e], now);
    assert Sweep([e], now) == [e];
  }
}
