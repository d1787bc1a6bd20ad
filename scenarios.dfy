/**
 * Walk-throughs of whole request lifecycles, checked against the
 * contracts of the service methods alone.
 */
module Scenarios {
  import opened Wrappers
  import opened Store
  import Pricing
  import Slug
  import opened CourseRequests
  import opened Courses

  function Workshop(): DraftInput {
    DraftInput(
      kind := WORKSHOP, category := Some("BUSINESS"), format := Some(ONLINE), delivery := None,
      titleKa := "სახელი", titleEn := None, descriptionKa := "აღწერა", descriptionEn := None,
      imageUrl := None, languageKa := Some("ქართული"), languageEn := None,
      syllabusKa := None, syllabusEn := None, mentorKa := None, mentorEn := None,
      originalPrice := Some(150), discountedPrice := Some(120),
      date := Some("2026-11-01T10:00:00Z"), location := None, startDate := None, videoUrls := None)
  }

  function VideoCourse(): DraftInput {
    DraftInput(
      kind := COURSE, category := Some("IT"), format := Some(ONLINE), delivery := Some(VIDEO),
      titleKa := "კურსი", titleEn := Some("Video course"), descriptionKa := "აღწერა", descriptionEn := None,
      imageUrl := None, languageKa := Some("ქართული"), languageEn := None,
      syllabusKa := Some("სილაბუსი"), syllabusEn := None, mentorKa := None, mentorEn := None,
      originalPrice := None, discountedPrice := None,
      date := None, location := None, startDate := None, videoUrls := Some(["v1", "v2", "v3"]))
  }

  /** A priced workshop goes through details, payment, submission and approval. */
  method WorkshopLifecycle(t: Slug.CharTables, now: Millis) {
    var db := new Db();
    Pricing.SeededVectors();
    var created := CreateDraft(db, "creator", Workshop());
    assert created.Ok?;
    var id := created.value;
    assert db.requests[id].discountPercent == Some(20);

    var details := SetDetails(db, id, "creator", 7, 70);
    assert details.Ok?;
    var paid := MarkAsPaid(db, id, "creator");
    assert paid.Ok?;
    var submitted := SubmitForApproval(db, id, "creator");
    assert submitted.Ok? && db.requests[id].status == PENDING_APPROVAL;

    var course := Approve(db, t, id, now);
    assert course.Ok?;
    assert course.value.status == ACTIVE;
    assert course.value.listingEndsAt == Some(now + 7 * DAY);
    assert course.value.discountPercent == Some(20);
    assert db.requests[id].status == APPROVED;

    // a second approval is refused and publishes nothing
    var again := Approve(db, t, id, now);
    assert again == Err(Forbidden(NotPendingApproval));
    assert |db.courses| == 1;
  }

  /** A video course cannot be submitted before its listing details are set. */
  method VideoCourseNeedsDetails() {
    var db := new Db();
    var created := CreateDraft(db, "creator", VideoCourse());
    assert created.Ok?;
    var id := created.value;
    assert |db.requests[id].videos| == 3;
    assert CourseContent(db.requests[id]) && db.requests[id].listingDays.None?;

    var early := SubmitForApproval(db, id, "creator");
    assert early == Err(Forbidden(DetailsRequired));
  }

  /**
   * A video course with three URLs and no price: once listing days and a
   * fee are set it is published with its videos, time-boxed.
   */
  method VideoCourseLifecycle(t: Slug.CharTables, now: Millis) {
    var db := new Db();
    var created := CreateDraft(db, "creator", VideoCourse());
    assert created.Ok?;
    var id := created.value;
    assert |db.requests[id].videos| == 3;

    var details := SetDetails(db, id, "creator", 30, 0);
    assert details.Ok?;
    assert Submittable(db.requests[id]);
    var submitted := SubmitForApproval(db, id, "creator");
    assert submitted.Ok?;
    var course := Approve(db, t, id, now);
    assert course.Ok?;
    assert course.value.videos == ["v1", "v2", "v3"];
    assert course.value.listingEndsAt == Some(now + 30 * DAY);
    assert course.value.discountPercent.None? && course.value.originalPrice == 0;
  }

  /**
   * No status check in `setDetails`: an approved request can be reopened,
   * resubmitted and approved again, publishing a second course.
   */
  method ReapprovalAfterReopening(t: Slug.CharTables, now: Millis) {
    var db := new Db();
    var created := CreateDraft(db, "creator", Workshop());
    assert created.Ok?;
    var id := created.value;
    var _ := SetDetails(db, id, "creator", 7, 70);
    var _ := SubmitForApproval(db, id, "creator");
    var first := Approve(db, t, id, now);
    assert first.Ok?;

    var reopened := SetDetails(db, id, "creator", 3, 30);
    assert reopened.Ok? && db.requests[id].status == PENDING_PAYMENT;
    var resubmitted := SubmitForApproval(db, id, "creator");
    assert resubmitted.Ok?;
    var second := Approve(db, t, id, now);
    assert second.Ok?;
    assert |db.courses| == 2;
  }

  /** An approved request can still be rejected. */
  method RejectAfterApproval(t: Slug.CharTables, now: Millis) {
    var db := new Db();
    var created := CreateDraft(db, "creator", Workshop());
    assert created.Ok?;
    var id := created.value;
    var _ := SubmitForApproval(db, id, "creator");
    var approved := Approve(db, t, id, now);
    assert approved.Ok?;
    var rejected := Reject(db, id);
    assert rejected.Ok? && db.requests[id].status == REJECTED;
    assert |db.courses| == 1;
  }
}
