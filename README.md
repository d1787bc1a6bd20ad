# Listing lifecycle of the course marketplace API

A Dafny model of the listing lifecycle of the course marketplace back end:

- the **pricing engine** (`computePricing`), which validates an original
  and a discounted price and derives the rounded discount percentage;
- the **course-request service**, where a creator drafts a course, workshop
  or masterclass request, sets listing days and fee, marks it paid and
  submits it, and an administrator approves it (publishing a course
  listing in one atomic step) or rejects it;
- the **course service**, where an administrator creates or extends a
  listing, a periodic sweep ages listings from ACTIVE to EXPIRING to
  EXPIRED, and the public catalogue shows the visible ones.

Files and modules:

| file | module | contents |
|---|---|---|
| `wrappers.dfy` | `Wrappers` | `Option` (nullable values) and `Result` (thrown errors) |
| `pricing.dfy` | `Pricing` | `ComputePricing` and its properties |
| `slug.dfy` | `Slug` | the rewrite chain of `makeSlug` and its characterisation |
| `store.dfy` | `Store` | the enumerations, the request and course records, the service errors, and the database class `Db` |
| `course_requests.dfy` | `CourseRequests` | `createDraft`, `setDetails`, `markAsPaid`, `submitForApproval`, `getPendingRequests`, `approve`, `reject` |
| `courses.dfy` | `Courses` | `createCourse`, `extendCourse`, `updateCourseStatuses`, `getPublicCourses` |
| `scenarios.dfy` | `Scenarios` | whole lifecycles checked against the method contracts |

Modelling choices:

- The database is the class `Store.Db`. Its field `requests` maps request ids to records. Its field `courses` holds the listings, and the course with id `i + 1` is `courses[i]`, as auto-increment assigns them. `Db.Valid()` is the store invariant: every request id was issued by the counter, and every stored pricing triple is what `computePricing` gives for the stored prices (`Store.PricingStored`).
- Every service call becomes a method that takes the database and `modifies` it. A thrown exception becomes an `Err` result, and the store is then unchanged. On success the method states the whole new state in terms of the old one.
- The clock is a parameter `now`, in integer milliseconds. `addDays(t, n)` is `t + n * DAY` and `addHours(now, 24)` is `now + 24 * HOUR`.
- `Math.round(100 * (o - d) / o)` is exact half-up rounding, `(200 * (o - d) + o) / (2 * o)`.
- The Unicode tables the slug regular expressions consult (`\p{L}`, `\p{N}`, `\s` and `toLowerCase`) are a parameter `Slug.CharTables`. The model does not interpret them.
- Each record has the fields the service code reads. The service reads `mentorKa`, `mentorEn`, `languageKa` and `location`, although the create-request payload declares mentor first/last names, `address` and `onlineUrl`.
- The application installs no validation pipe (`src/main.ts`, `src/app.module.ts`), so the payload classes' decorators never run. The operations therefore take every value of their fields' types. A negative price reaches `computePricing` and becomes a BadRequest. More than 25 video URLs are stored, and only submission refuses them. A duration of zero or less leaves a listing's end where it is or moves it back.

## Model

| member | source | states |
|---|---|---|
| `Pricing.ComputePricing` | src/common/pricing/pricing.ts:7-48 | the result keeps `originalPrice`; `discountedPrice` is null exactly when `discountPercent` is; it is an error exactly when `o < 0`, or `d` is given and negative or above `o`, and each error names the first failed check |
| `Pricing.NoDiscountCases` | src/common/pricing/pricing.ts:15-25 | an absent discounted price, or one equal to the original (including `(0, 0)`), gives `{o, null, null}` and no error |
| `Pricing.ZeroOriginalDecided` | src/common/pricing/pricing.ts:11-33 | with `o = 0` the checks before the `originalPrice === 0` branch decide every input: no discount for an absent or zero `d`, DiscountedNegative for a negative one, DiscountedAboveOriginal for a positive one |
| `Pricing.RoundedPercentIsHalfUp` | src/common/pricing/pricing.ts:35-37 | the percentage `p` satisfies `2o·p ≤ 200(o−d) + o < 2o·(p+1)`: it is 100(o−d)/o rounded half up |
| `Pricing.RoundedPercentPositive` | src/common/pricing/pricing.ts:35-41 | the rounded percentage is at least 1 exactly when `200(o−d) ≥ o` |
| `Pricing.RoundedPercentAtMostHundred` | src/common/pricing/pricing.ts:35-37 | a non-negative `d` gives at most 100 percent |
| `Pricing.DiscountReturnedWhen` | src/common/pricing/pricing.ts:35-47 | a discount is returned exactly when `0 ≤ d < o` and `200(o−d) ≥ o` (at least half a percent) |
| `Pricing.DiscountReturnedShape` | src/common/pricing/pricing.ts:35-47 | a returned discount has `0 ≤ d < o`, carries `d` and the rounded percentage, and the percentage is in 1..100 |
| `Pricing.Idempotent` | src/common/pricing/pricing.ts:15-47 | recomputing with the result's discounted price gives the same result |
| `Pricing.TinyDiscountCollapses` | src/common/pricing/pricing.ts:39-41 | `(201, 200)` rounds to 0 percent and gives no discount |
| `Pricing.SeededVectors` | prisma/seed.ts:116-118 | `(800,600)` gives 25, `(1000,600)` gives 40 and `(150,120)` gives 20, the seeded percentages |
| `Slug.CollapseRuns` | src/course-requests/course-requests.service.ts:27-29 | a global `X+` → `-` replacement: empty exactly for the empty string; the first character is `-` or the input's first |
| `Slug.TrimStart` | src/course-requests/course-requests.service.ts:26 | a suffix of the text that does not start with whitespace, and everything removed is whitespace |
| `Slug.TrimEnd` | src/course-requests/course-requests.service.ts:26 | a prefix of the text that does not end with whitespace, and everything removed is whitespace |
| `Slug.StripRemovesEdgeHyphens` | src/course-requests/course-requests.service.ts:30 | `Slug.StripHyphenEdges` drops the first character exactly when it is `-`, and then the last exactly when it is `-`, and keeps the slice between |
| `Slug.Decimal` | src/course-requests/course-requests.service.ts:33 | the interpolated clock reading is a non-empty string of decimal digits, without a leading zero, whose value (`Slug.DigitsValue`) is the number |
| `Slug.IntText` | src/course-requests/course-requests.service.ts:33 | a non-negative number prints as its digits and a negative one as `-` and the digits of its magnitude, each denoting the number |
| `Slug.IntTextInjective` | src/course-requests/course-requests.service.ts:33 | different numbers print differently |
| `Slug.MakeSlug` | src/course-requests/course-requests.service.ts:23-34 | the slug is a non-empty base, `-` and the clock reading; the base is "course" or slug-shaped; for consistent Unicode tables it is the title's letter/number runs joined by `-`, or "course" when there are none |
| `Slug.MakeSlugSeparatesClocks` | src/course-requests/course-requests.service.ts:32-33 | the same title at two different clock readings gives two different slugs |
| `Slug.CleanedShape` | src/course-requests/course-requests.service.ts:24-30 | the cleaned title (`Slug.Cleaned`, the rewrite chain) has only letters, numbers and `-`, no two adjacent `-`, and no `-` at either end |
| `Slug.LeadingRun` | src/course-requests/course-requests.service.ts:28 | the longest prefix of letters and numbers: every character a word character, and the next one not |
| `Slug.CleanedKeepsWords` | src/course-requests/course-requests.service.ts:24-30 | for consistent Unicode tables, no rewrite step changes the words (`Slug.Words`) of the lower-cased title |
| `Slug.CleanedIsJoinedRuns` | src/course-requests/course-requests.service.ts:24-30 | for consistent Unicode tables, the cleaned title (`Slug.Cleaned`) is exactly the maximal letter/number runs (`Slug.Runs`) of the lower-cased title joined by single `-` (`Slug.JoinHyphen`) |
| `CourseRequests.DraftDelivery` | src/course-requests/course-requests.service.ts:38-41 | a COURSE keeps the requested delivery, defaulting to LIVE; every other kind gets LIVE |
| `CourseRequests.NumberedVideos` | src/course-requests/course-requests.service.ts:63-66 | one row per URL, in input order, with `order` values 1..n |
| `CourseRequests.DraftPricing` | src/course-requests/course-requests.service.ts:44-56 | an error exactly when an original price is given and it is negative, or a discounted price is given and is negative or above it, and then `computePricing`'s error; otherwise the original price (0 when absent) with both discount fields null together |
| `CourseRequests.DraftRecord` | src/course-requests/course-requests.service.ts:37-126 | fails with BadRequest carrying `DraftPricing`'s error exactly when that rejects the prices; otherwise status DRAFT, owner, copied content, the derived delivery, syllabus and mentor only for COURSE, `date` only for other kinds, `startDate` only for COURSE+LIVE, `location` only for ONSITE, videos (`DraftVideos`, lines 58-68) only for COURSE+VIDEO with URLs, numbered 1..n, null discount fields without an original price, otherwise the computed ones |
| `CourseRequests.CreateDraft` | src/course-requests/course-requests.service.ts:70-126 | stores exactly the derived record under a new id and changes nothing else; on a pricing error nothing is stored |
| `CourseRequests.Owned` | src/course-requests/course-requests.service.ts:136-140 | the lookup gives NotFound for an unknown id, then Forbidden for another user, else the stored record |
| `CourseRequests.PendingRequests` | src/course-requests/course-requests.service.ts:239-245 | exactly the stored requests with status PENDING_APPROVAL, unchanged |
| `CourseRequests.SetDetails` | src/course-requests/course-requests.service.ts:130-157 | checks in order: not found, not the creator, `listingDays < 1`, `listingFee < 0`; on success writes both values and PENDING_PAYMENT whatever the prior status, and nothing else |
| `CourseRequests.MarkAsPaid` | src/course-requests/course-requests.service.ts:159-170 | only the lookup and ownership checks; on success the status is PAID from any status, nothing else changes |
| `CourseRequests.SubmissionDenial` | src/course-requests/course-requests.service.ts:180-231 | the checks pass exactly when the request is `Submittable` (the gate stated as one predicate); each of the nine denials is returned exactly when every earlier check passes and its own fails, in the source's order; kinds other than COURSE fail only on category/format, language or date |
| `CourseRequests.GateIgnoresStatus` | src/course-requests/course-requests.service.ts:180-231 | the submission checks do not depend on the status, so payment is not required |
| `CourseRequests.SubmitForApproval` | src/course-requests/course-requests.service.ts:172-237 | lookup, ownership, then the gate; success exactly for an owned submittable request, which becomes PENDING_APPROVAL and appears among the pending requests |
| `CourseRequests.ListingEnd` | src/course-requests/course-requests.service.ts:259-262 | an end exactly when `listingDays > 0`, and then `now + listingDays` days |
| `CourseRequests.PublishedPricing` | src/course-requests/course-requests.service.ts:264-275 | the published original price is the stored one (0 when absent); for a record that keeps the store invariant the recomputation succeeds and reproduces the stored discount |
| `CourseRequests.VideoUrls` | src/course-requests/course-requests.service.ts:333 | the URLs of the request videos, in order |
| `CourseRequests.PublishedCourse` | src/course-requests/course-requests.service.ts:259-347 | the course is ACTIVE with the derived end and slug; all content copied; videos only for VIDEO delivery; materials always; pricing recomputed from the stored prices, equal to the stored discount when the store invariant holds (no drift); fails only on a pricing error |
| `CourseRequests.Approve` | src/course-requests/course-requests.service.ts:248-356 | NotFound for an unknown id; Forbidden unless PENDING_APPROVAL (so a second approve fails); on success one published course is appended and the request becomes APPROVED, leaving the pending list; a failure changes nothing |
| `CourseRequests.Reject` | src/course-requests/course-requests.service.ts:358-368 | only the lookup check; the status becomes REJECTED from any status, even APPROVED |
| `Courses.NewCourse` | src/courses/courses.service.ts:93-137 | fails with BadRequest carrying `computePricing`'s error exactly when the original price is negative, or a discounted price is negative or above it; otherwise the pricing equals `computePricing`, the end is `now + duration` days, the status is ACTIVE, and the kind defaults to COURSE |
| `Courses.CreateCourse` | src/courses/courses.service.ts:93-137 | appends exactly the new course on success and nothing on failure |
| `Courses.ExtendCourse` | src/courses/courses.service.ts:139-152 | NotFound exactly for an unknown id; otherwise only that listing changes, to its extension |
| `Courses.ExtendedEnd` | src/courses/courses.service.ts:143-150 | the extension (`Courses.Extended`) ends `duration` days after the old end, even if the old end is past, or `duration` days after `now` when there was none; status is ACTIVE; nothing else changes |
| `Courses.ExpiringPass` | src/courses/courses.service.ts:162-168 | the first bulk update applied to every listing, count unchanged |
| `Courses.ExpiredPass` | src/courses/courses.service.ts:170-176 | the second bulk update applied to every listing, count unchanged |
| `Courses.SweepPointwise` | src/courses/courses.service.ts:158-177 | the sweep (`Courses.Sweep`) keeps the number of listings and is the per-listing `Courses.Swept` at every index |
| `Courses.UpdateCourseStatuses` | src/courses/courses.service.ts:157-177 | the listings afterwards are the second pass applied to the first pass of the listings before; requests are untouched |
| `Courses.SweepMarksExpiring` | src/courses/courses.service.ts:162-168 | the first pass (`Courses.MarkExpiring`) applied by the sweep: exactly the ACTIVE listings with `now < end ≤ now + 24h` become EXPIRING |
| `Courses.SweepMarksExpired` | src/courses/courses.service.ts:170-176 | the second pass (`Courses.MarkExpired`) applied by the sweep: exactly the EXPIRING listings with `end ≤ now` become EXPIRED, including those EXPIRING before the run |
| `Courses.SweepNoDoubleStep` | src/courses/courses.service.ts:162-176 | an ACTIVE listing never becomes EXPIRED in one run |
| `Courses.SweepIdempotent` | src/courses/courses.service.ts:158-177 | a second sweep at the same time changes nothing |
| `Courses.SweepChangesOnlyStatus` | src/courses/courses.service.ts:162-176 | only the status changes, only forward along ACTIVE, EXPIRING, EXPIRED, and a listing is ARCHIVED after the sweep exactly when it was before |
| `Courses.SweepLeavesAlone` | src/courses/courses.service.ts:162-176 | listings without an end, EXPIRED or ARCHIVED ones, and ACTIVE ones already past their end are untouched |
| `Courses.SweepScenario` | src/courses/courses.service.ts:159-176 | a listing ending in 23 hours becomes EXPIRING, and EXPIRED on a sweep after its end |
| `Courses.PublicCourses` | src/courses/courses.service.ts:38-50 | a listing is returned exactly when it is `Courses.IsPublic`: it is ACTIVE or EXPIRING, of the given kind if one is given, and has an English title for locale "en"; every public listing occurs as often as in the store, and no other listing occurs |
| `Courses.ExtendedPastDueStaysPublic` | src/courses/courses.service.ts:143-176 | a listing extended by fewer days than it has been over is ACTIVE with a past end, no sweep moves it, and it stays public |

## Behaviour worth knowing

- Submission checks category, format, `languageKa`, a COURSE's syllabus, delivery, start date, video count and listing details, and another kind's date. It checks nothing else: titles, description, image, address, online URL and the English fields play no part.
- A video COURSE still needs non-zero `listingDays` and a `listingFee`, so its listing is time-boxed (`Scenarios.VideoCourseNeedsDetails`). A WORKSHOP or MASTERCLASS needs neither, and without listing days it is published with no end.
- `submitForApproval` does not check payment. `markAsPaid` and `reject` have no status precondition. `setDetails` also has none, so an APPROVED request can be reopened, resubmitted and approved again, which publishes a second course (`Scenarios.ReapprovalAfterReopening`). A REJECTED request can be reopened the same way.
- Submission never approves a request by itself: every request waits for an explicit `approve`.
- The payload classes declare non-negative prices, at most 25 video URLs and a duration of 1 to 365 days, but no validation pipe is installed, so none of these bounds is enforced. Only the services' own checks apply: pricing rejects negative prices, and submission rejects more than 25 videos.
- The application module imports neither the course nor the course-request module, so as bootstrapped their routes are not mounted. The model treats both services as reachable.
- The listing fee is taken from the caller. It is not computed from the days.
- `extendCourse` adds the days to the old end even when that end has passed (or to `now` when there is none). An ACTIVE listing whose end has passed is never moved by the sweep (`Courses.ExtendedPastDueStaysPublic`).

## Left out

- Authentication, JWT and OAuth strategies, guards, controllers, Nest modules and bootstrap: these are routing and foreign libraries.
- The users service, the seed script, and the translation helper, which calls an external service. The seed script's prices appear only as worked pricing examples.
- `searchCourses`: it relies on the database's case-insensitive `contains`.
- `getActiveCourses`, `getExpiringCourses`, `getArchivedCourses`, `findOneById` and `findBySlug`: these are single-table lookups outside the lifecycle.
- `orderBy createdAt`: ordering is the database's, so the filters return listings in store order and pending requests as a map.
- Non-integer and missing numbers: prices, days and durations are integers in the model, so the `Number.isInteger` checks have no failing case here, and a missing or fractional duration, which would give `addDays` an invalid date, is not modelled.
- The database's rejection of values outside an enumeration. `Store.Category` is any non-empty string, so a category outside `CourseCategory` is stored in the model where the database would raise an error. The type, delivery and format enumerations are Dafny datatypes, so no other value can be written.
- Payload validation: the `class-validator` decorators on the payload classes are not installed by the application's bootstrap, so no operation has a precondition on its payload.
- Floating-point `Math.round` at exact halves, and daylight-saving changes in `addDays`. The model uses exact integer arithmetic.
- Unicode classification and case mapping: these are the `Slug.CharTables` parameter, and `Slug.CleanedIsJoinedRuns` assumes only what Unicode guarantees about them.
- Date parsing: `date`, `startDate` and `endDate` are kept as the text they were created from.
- Transactions and concurrency: each method is one atomic step, and concurrent calls, including two concurrent approvals, are not modelled.
- The clock and the cron cadence: `now` is a parameter. `approve` reads the clock twice (for the end and for the slug), and the model uses one reading for both.
- Slug uniqueness and collision handling in the store.
- Database-generated values: request ids are issued by a counter (the database uses generated strings), creation timestamps are not modelled, and a user id that names no user is not rejected.
- The columns `createCourse` does not write (category, format, delivery, location, dates, syllabus, mentor and creator) get their database defaults. The model uses `None`, since the schema is not part of this model.
- The create-course payload's category, delivery, format, location, `isGeorgia` and date fields: the service ignores them.
- How request materials are created: drafts start with none, and approval copies whatever the request holds.
- The records returned with their `include`d relations (creator, videos, materials): the methods return the record itself.
