/**
 * The records the two services share through the database: course
 * requests (keyed by id) and published courses (the listings), the
 * enumerations they use, and the errors the services throw.
 */
module Store {
  import opened Wrappers
  import Pricing

  type UserId = string
  type RequestId = nat
  /** A `CourseCategory` enumeration value: never the empty string, so present means truthy. */
  type Category = s: string | s != "" witness "IT"
  /** A date-time field as the ISO text it was created from; parsing is not modelled. */
  type DateText = string
  /** A timestamp in milliseconds. */
  type Millis = int

  const HOUR: int := 3_600_000
  const DAY: int := 24 * HOUR

  datatype Kind = COURSE | WORKSHOP | MASTERCLASS
  datatype Delivery = LIVE | VIDEO
  datatype Format = ONLINE | ONSITE

  datatype RequestStatus = DRAFT | PENDING_PAYMENT | PAID | PENDING_APPROVAL | APPROVED | REJECTED
  datatype CourseStatus = ACTIVE | EXPIRING | EXPIRED | ARCHIVED

  /** A `requestVideos` row: the URL and its 1-based position. */
  datatype RequestVideo = RequestVideo(url: string, order: int)

  /** A stored course request, with the fields the services read and write. */
  datatype CourseRequest = CourseRequest(
    creatorId: UserId,
    kind: Kind,
    category: Option<Category>,
    format: Option<Format>,
    delivery: Option<Delivery>,
    titleKa: string,
    titleEn: Option<string>,
    descriptionKa: string,
    descriptionEn: Option<string>,
    imageUrl: Option<string>,
    languageKa: Option<string>,
    languageEn: Option<string>,
    syllabusKa: Option<string>,
    syllabusEn: Option<string>,
    mentorKa: Option<string>,
    mentorEn: Option<string>,
    originalPrice: Option<int>,
    discountedPrice: Option<int>,
    discountPercent: Option<int>,
    date: Option<DateText>,
    location: Option<string>,
    startDate: Option<DateText>,
    endDate: Option<DateText>,
    listingDays: Option<int>,
    listingFee: Option<int>,
    videos: seq<RequestVideo>,
    materials: seq<string>,
    status: RequestStatus)

  /** A published course (a listing), with its copied video URLs and material links. */
  datatype Course = Course(
    slug: string,
    kind: Kind,
    creatorId: Option<UserId>,
    category: Option<Category>,
    format: Option<Format>,
    delivery: Option<Delivery>,
    titleKa: string,
    titleEn: Option<string>,
    descriptionKa: string,
    descriptionEn: Option<string>,
    imageUrl: string,
    altTextKa: string,
    altTextEn: Option<string>,
    buttonKa: string,
    buttonEn: Option<string>,
    formatKa: string,
    formatEn: Option<string>,
    languageKa: string,
    languageEn: Option<string>,
    location: Option<string>,
    startDate: Option<DateText>,
    endDate: Option<DateText>,
    date: Option<DateText>,
    listingEndsAt: Option<Millis>,
    status: CourseStatus,
    syllabusKa: Option<string>,
    syllabusEn: Option<string>,
    mentorKa: Option<string>,
    mentorEn: Option<string>,
    originalPrice: int,
    discountedPrice: Option<int>,
    discountPercent: Option<int>,
    videos: seq<string>,
    materials: seq<string>)

  /** Why a `ForbiddenException` was thrown. */
  datatype Denial =
    | NotCreator
    | NotPendingApproval
    | CategoryAndFormatRequired
    | LanguageRequired
    | SyllabusRequired
    | DeliveryRequired
    | StartDateRequired
    | VideoRequired
    | TooManyVideos
    | DetailsRequired
    | DateRequired

  /** Why a `BadRequestException` was thrown. */
  datatype Invalid =
    | ListingDaysBelowOne
    | ListingFeeNegative
    | BadPricing(pricing: Pricing.PricingError)

  datatype ServiceError =
    | NotFound
    | Forbidden(denial: Denial)
    | BadRequest(invalid: Invalid)
    /** A pricing error that escapes uncaught (an internal server error). */
    | Uncaught(pricing: Pricing.PricingError)

  type Outcome<T> = Result<T, ServiceError>

  /** The stored pricing triple is what `computePricing` gives for the stored prices. */
  predicate PricingStored(r: CourseRequest) {
    match r.originalPrice
    case None => r.discountedPrice.None? && r.discountPercent.None?
    case Some(o) =>
      Pricing.ComputePricing(o, r.discountedPrice)
        == Ok(Pricing.PricingComputed(o, r.discountedPrice, r.discountPercent))
  }

  /** The database: the `courseRequest` and `course` tables. */
  class Db {
    var requests: map<RequestId, CourseRequest>
    /** The course with id `i + 1` is `courses[i]` (ids are assigned by auto-increment). */
    var courses: seq<Course>
    /** The id the next created request receives. */
    var nextRequestId: RequestId

    /** Every stored id was issued, and every stored request has consistent pricing. */
    ghost predicate Valid()
      reads this
    {
      forall id :: id in requests ==> id < nextRequestId && PricingStored(requests[id])
    }

    constructor ()
      ensures Valid() && requests == map[] && courses == [] && nextRequestId == 0
    {
      requests := map[];
      courses := [];
      nextRequestId := 0;
    }
  }
}
