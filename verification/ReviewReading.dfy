/** Which requests carry which pre-PR review: what `readPrePrReviewEvidence` reads, and what it will not read. */
module ReviewReading {
  import opened Options
  import opened JsonValues
  import opened SessionTransition

  /** No white space at either end, and no control character or line separator anywhere. */
  ghost predicate IsPresentable(text: Text) {
    && text != []
    && forall i :: 0 <= i < |text| ==>
         && 0x20 <= text[i] && !(0x7F <= text[i] <= 0x9F) && text[i] != 0x2028 && text[i] != 0x2029
         && (i == 0 || i == |text| - 1 ==> !IsWhitespace(text[i]))
  }

  ghost predicate IsFullDigest(text: Text, length: nat) {
    |text| == length && forall i :: 0 <= i < length ==> 0x30 <= text[i] <= 0x39 || 0x61 <= text[i] <= 0x66
  }

  /** A review that may be recorded: digests in full, texts presentable, findings told apart, and none when clean. */
  ghost predicate IsReview(e: PrePrReviewEvidence) {
    && IsFullDigest(e.headSha, 40)
    && IsPresentable(e.evidenceRef)
    && IsFullDigest(e.evidenceSha256, 64)
    && (forall i :: 0 <= i < |e.findings| ==> IsStated(e.findings[i]))
    && (forall i, j :: 0 <= i < j < |e.findings| ==> e.findings[i].id != e.findings[j].id)
    && (e.outcome == Clean <==> e.findings == [])
  }

  ghost predicate IsStated(f: Finding) {
    IsPresentable(f.id) && IsPresentable(f.summary) && IsPresentable(f.path)
  }

  /** The object has that text under that name. */
  ghost predicate Holds(value: Json, name: string, text: Text) {
    value.Obj? && Ascii(name) in value.members && value.members[Ascii(name)] == Str(text)
  }

  ghost predicate CarriesFinding(item: Json, f: Finding) {
    Holds(item, "id", f.id) && Holds(item, "summary", f.summary) && Holds(item, "path", f.path)
  }

  /** The request holds the review, field by field. */
  ghost predicate Carries(input: Json, e: PrePrReviewEvidence) {
    && input.Obj? && Ascii("pre_pr_review") in input.members
    && var review := input.members[Ascii("pre_pr_review")];
    && Holds(review, "outcome", Ascii(if e.outcome == Clean then "clean" else "changes_required"))
    && Holds(review, "head_sha", e.headSha)
    && Holds(review, "evidence_ref", e.evidenceRef)
    && Holds(review, "evidence_sha256", e.evidenceSha256)
    && Ascii("findings") in review.members
    && var findings := review.members[Ascii("findings")];
    && findings.Arr? && |findings.items| == |e.findings|
    && forall i :: 0 <= i < |e.findings| ==> CarriesFinding(findings.items[i], e.findings[i])
  }

  // ----- the texts

  lemma NormalizedIsPresentable(text: Text)
    ensures IsNormalizedText(text) <==> IsPresentable(text)
  {
    assert forall i :: 0 <= i < |text| ==> text[i] in text;
  }

  lemma HexIsFullDigest(text: Text, length: nat)
    requires length > 0
    ensures IsLowerHex(text, length) <==> IsFullDigest(text, length)
    ensures IsFullDigest(text, length) ==> IsNormalizedText(text)
  {
    assert forall i :: 0 <= i < |text| ==> text[i] in text;
  }

  lemma TextIsHeld(value: Json, name: string)
    ensures forall text :: TextField(value, name) == Some(text) <==> Holds(value, name, text)
  {
  }

  lemma NormalizedIsHeld(value: Json, name: string)
    ensures forall text :: NormalizedField(value, name) && TextField(value, name) == Some(text)
                           <==> Holds(value, name, text) && IsPresentable(text)
  {
    hide IsNormalizedText, IsPresentable;
    TextIsHeld(value, name);
    forall text | true ensures IsNormalizedText(text) <==> IsPresentable(text) {
      NormalizedIsPresentable(text);
    }
  }

  lemma FindingIsCarried(item: Json, f: Finding)
    ensures IsFinding(item) && ToFinding(item) == f <==> CarriesFinding(item, f) && IsStated(f)
  {
    hide IsNormalizedText, IsPresentable, TextField, Holds;
    NormalizedIsHeld(item, "id");
    NormalizedIsHeld(item, "summary");
    NormalizedIsHeld(item, "path");
  }
  lemma FindingsAreCarried(items: seq<Json>, findings: seq<Finding>)
    requires |items| == |findings|
    ensures AreFindings(items) && ToFindings(items) == findings
            <==> && (forall i :: 0 <= i < |findings| ==> CarriesFinding(items[i], findings[i]))
                 && (forall i :: 0 <= i < |findings| ==> IsStated(findings[i]))
                 && forall i, j :: 0 <= i < j < |findings| ==> findings[i].id != findings[j].id
  {
    hide IsFinding, ToFinding, IsStated, CarriesFinding;
    forall i | 0 <= i < |findings|
      ensures IsFinding(items[i]) && ToFinding(items[i]) == findings[i]
              <==> CarriesFinding(items[i], findings[i]) && IsStated(findings[i])
    {
      FindingIsCarried(items[i], findings[i]);
    }
    if AreFindings(items) && ToFindings(items) == findings {
      forall i | 0 <= i < |findings| ensures IsFinding(items[i]) && ToFinding(items[i]) == findings[i] {
        assert ToFindings(items)[i] == ToFinding(items[i]);
      }
    }
  }

  lemma OutcomesDiffer()
    ensures Ascii("clean") != Ascii("changes_required")
  {
    assert |Ascii("clean")| == 5 && |Ascii("changes_required")| == 16;
  }

  /** A request is read as a review exactly when it carries that review and the review may be recorded. */
  lemma ReviewReadingIsExact(input: Json, e: PrePrReviewEvidence)
    ensures ReadPrePrReviewEvidence(input) == Some(e) <==> IsReview(e) && Carries(input, e)
  {
    hide TextField, IsNormalizedText, IsPresentable, AreFindings, ToFindings, IsLowerHex, IsFullDigest, IsStated,
      CarriesFinding;
    OutcomesDiffer();
    if Ascii("pre_pr_review") in MembersOf(input) {
      var review := input.members[Ascii("pre_pr_review")];
      FieldsAreHeld(review, e);
      if Ascii("findings") in MembersOf(review) && review.members[Ascii("findings")].Arr? {
        var items := review.members[Ascii("findings")].items;
        FindingsAreAsMany(items);
        if |items| == |e.findings| { FindingsAreCarried(items, e.findings); }
      }
    }
  }

  lemma FindingsAreAsMany(items: seq<Json>)
    ensures AreFindings(items) ==> |ToFindings(items)| == |items|
  {
    hide IsFinding, ToFinding;
  }

  function MembersOf(value: Json): map<Text, Json> {
    if value.Obj? then value.members else map[]
  }

  lemma FieldsAreHeld(review: Json, e: PrePrReviewEvidence)
    ensures forall text :: TextField(review, "outcome") == Some(text) <==> Holds(review, "outcome", text)
    ensures NormalizedField(review, "head_sha") && TextField(review, "head_sha") == Some(e.headSha)
            && IsLowerHex(e.headSha, 40)
            <==> Holds(review, "head_sha", e.headSha) && IsFullDigest(e.headSha, 40)
    ensures NormalizedField(review, "evidence_ref") && TextField(review, "evidence_ref") == Some(e.evidenceRef)
            <==> Holds(review, "evidence_ref", e.evidenceRef) && IsPresentable(e.evidenceRef)
    ensures NormalizedField(review, "evidence_sha256")
            && TextField(review, "evidence_sha256") == Some(e.evidenceSha256) && IsLowerHex(e.evidenceSha256, 64)
            <==> Holds(review, "evidence_sha256", e.evidenceSha256) && IsFullDigest(e.evidenceSha256, 64)
  {
    hide IsNormalizedText, IsPresentable, TextField, Holds, IsLowerHex, IsFullDigest;
    TextIsHeld(review, "outcome");
    NormalizedIsHeld(review, "head_sha");
    NormalizedIsHeld(review, "evidence_ref");
    NormalizedIsHeld(review, "evidence_sha256");
    HexIsFullDigest(e.headSha, 40);
    HexIsFullDigest(e.evidenceSha256, 64);
    NormalizedIsPresentable(e.headSha);
    NormalizedIsPresentable(e.evidenceSha256);
  }
}
