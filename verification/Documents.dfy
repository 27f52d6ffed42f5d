/**
 Document checklists and routing with retry (app/services/document/service.py), and the
 validation of checklists (app/services/cms/validation.py).
 */
module Documents {
  import opened Shared
  import opened Sequences

  datatype Status = Received | Completed | Rejected | Failed

  // ----- routing one document -----

  /** What one call of the extraction service brings. */
  datatype Reply = Unreachable | Processed(valid: bool, docType: string)

  class DocumentRecord {
    var status: Status
    var docType: string                  // "" while unclassified
    var attempts: nat
    var hasError: bool

    constructor ()
      ensures status == Received && docType == "" && attempts == 0 && !hasError
    {
      status, docType, attempts, hasError := Received, "", 0, false;
    }
  }

  /** The first call, of at most n, that the service answers; n when none is. */
  ghost predicate FirstAnswer(replies: nat -> Reply, n: nat, k: nat) {
    k <= n && (forall i: nat :: i < k ==> replies(i).Unreachable?) && (k < n ==> replies(k).Processed?)
  }

  /** At most max(1, maxAttempts) calls; the first answer, of call k, decides, and without one the
      document has failed. */
  method RouteToMadad(document: DocumentRecord, maxAttempts: int, replies: nat -> Reply)
      returns (calls: nat, ghost k: nat)
    modifies document
    ensures 1 <= calls <= Max(1, maxAttempts) && document.attempts == old(document.attempts) + calls
    ensures FirstAnswer(replies, Max(1, maxAttempts), k)
    ensures if k == Max(1, maxAttempts) then
              && calls == k && document.status == Failed && document.hasError
              && document.docType == old(document.docType)
            else
              && calls == k + 1 && !document.hasError && document.docType == replies(k).docType
              && document.status == if replies(k).valid then Completed else Rejected
  {
    var attempts := Max(1, maxAttempts);
    for attempt := 0 to attempts
      invariant document.attempts == old(document.attempts) + attempt
      invariant document.docType == old(document.docType)
      invariant forall i: nat :: i < attempt ==> replies(i).Unreachable?
      invariant attempt < attempts
    {
      document.attempts := document.attempts + 1;
      var reply := replies(attempt);
      if reply.Unreachable? {
        document.hasError := true;
        if attempt < attempts - 1 {
          continue;
        }
        document.status := Failed;
        return attempts, attempts;
      }
      document.docType := reply.docType;
      document.hasError := false;
      document.status := if reply.valid then Completed else Rejected;
      return attempt + 1, attempt;
    }
    assert false;
  }

  /** There is exactly one such call number. */
  lemma FirstAnswerIsUnique(replies: nat -> Reply, n: nat, a: nat, b: nat)
    requires FirstAnswer(replies, n, a) && FirstAnswer(replies, n, b)
    ensures a == b
  {
    assert a < b ==> replies(a).Unreachable?;
    assert b < a ==> replies(b).Unreachable?;
  }

  // ----- checklists -----

  datatype RequiredDocument = RequiredDocument(code: string, required: bool)

  datatype Upload = Upload(docType: string, status: Status)

  /** The comparison form of a code or type: lower case, letters and digits only. */
  type Norm = string -> string

  datatype ChecklistStatus = ChecklistStatus(received: set<string>, validated: set<string>,
                                             rejected: set<string>, missing: seq<string>)

  function TypesOf(uploads: seq<Upload>, status: Option<Status>): set<string> {
    set u | u in uploads && u.docType != "" && (status.Some? ==> u.status == status.value) :: u.docType
  }

  /** The codes of the entries that are required, in order. */
  function RequiredCodes(checklist: seq<RequiredDocument>): seq<string> {
    if checklist == [] then []
    else
      var n := |checklist| - 1;
      RequiredCodes(checklist[..n]) + if checklist[n].required then [checklist[n].code] else []
  }

  function Norms(types: set<string>, norm: Norm): set<string> {
    set t | t in types :: norm(t)
  }

  function Unmatched(codes: seq<string>, found: set<string>, norm: Norm): seq<string> {
    if codes == [] then []
    else
      var n := |codes| - 1;
      Unmatched(codes[..n], found, norm) + if norm(codes[n]) in found then [] else [codes[n]]
  }

  predicate Counts(u: Upload) {
    !u.status.Rejected? && !u.status.Failed?
  }

  function Counting(uploads: seq<Upload>): seq<Upload> {
    if uploads == [] then []
    else
      var n := |uploads| - 1;
      Counting(uploads[..n]) + if Counts(uploads[n]) then [uploads[n]] else []
  }

  function CheckStatus(checklist: seq<RequiredDocument>, uploads: seq<Upload>, norm: Norm): ChecklistStatus {
    var validated := TypesOf(uploads, Some(Completed));
    var codes := RequiredCodes(checklist);
    var missing := Unmatched(codes, Norms(validated, norm), norm);
    ChecklistStatus(TypesOf(uploads, None), validated, TypesOf(uploads, Some(Rejected)),
                    if missing != [] && |codes| > 0 && |Counting(uploads)| >= |codes| then [] else missing)
  }

  /** Received, validated and rejected are the types of all, of the completed and of the rejected uploads. */
  lemma StatusSets(checklist: seq<RequiredDocument>, uploads: seq<Upload>, norm: Norm, t: string)
    ensures t in CheckStatus(checklist, uploads, norm).received <==>
              t != "" && exists i :: 0 <= i < |uploads| && uploads[i].docType == t
    ensures t in CheckStatus(checklist, uploads, norm).validated <==>
              t != "" && exists i :: 0 <= i < |uploads| && uploads[i] == Upload(t, Completed)
    ensures t in CheckStatus(checklist, uploads, norm).rejected <==>
              t != "" && exists i :: 0 <= i < |uploads| && uploads[i] == Upload(t, Rejected)
  {
  }

  /** An entry adds its code to the required ones, in its place, iff it is required. */
  lemma {:induction false} RequiredInOrder(before: seq<RequiredDocument>, entry: RequiredDocument,
                                           after: seq<RequiredDocument>)
    ensures RequiredCodes([]) == []
    ensures RequiredCodes(before + [entry] + after) ==
            RequiredCodes(before) + (if entry.required then [entry.code] else []) + RequiredCodes(after)
  {
    var all := before + [entry] + after;
    if after == [] {
      assert all[..|all| - 1] == before;
    } else {
      var n := |after| - 1;
      assert all[..|all| - 1] == before + [entry] + after[..n];
      RequiredInOrder(before, entry, after[..n]);
    }
  }

  /** An upload counts iff it is neither rejected nor failed. */
  lemma {:induction false} EachUploadCounts(before: seq<Upload>, u: Upload, after: seq<Upload>)
    ensures |Counting([])| == 0
    ensures |Counting(before + [u] + after)| ==
            |Counting(before)| + (if u.status == Rejected || u.status == Failed then 0 else 1) + |Counting(after)|
  {
    var all := before + [u] + after;
    if after == [] {
      assert all[..|all| - 1] == before;
    } else {
      var n := |after| - 1;
      assert all[..|all| - 1] == before + [u] + after[..n];
      EachUploadCounts(before, u, after[..n]);
    }
  }

  /** Missing codes keep the order of the checklist. */
  lemma {:induction false} UnmatchedInOrder(before: seq<string>, code: string, after: seq<string>,
                                            found: set<string>, norm: Norm)
    ensures Unmatched(before + [code] + after, found, norm) ==
            Unmatched(before, found, norm) + (if norm(code) in found then [] else [code]) +
            Unmatched(after, found, norm)
  {
    var all := before + [code] + after;
    if after == [] {
      assert all[..|all| - 1] == before;
    } else {
      var n := |after| - 1;
      assert all[..|all| - 1] == before + [code] + after[..n];
      UnmatchedInOrder(before, code, after[..n], found, norm);
    }
  }

  predicate Complete(checklist: seq<RequiredDocument>, uploads: seq<Upload>, norm: Norm) {
    CheckStatus(checklist, uploads, norm).missing == []
  }

  /** The comparison forms of the required codes. */
  function RequiredNorms(checklist: seq<RequiredDocument>, norm: Norm): set<string> {
    Norms(ToSet(RequiredCodes(checklist)), norm)
  }

  function CodeNorms(codes: seq<string>, norm: Norm): seq<string> {
    seq(|codes|, i requires 0 <= i < |codes| => norm(codes[i]))
  }

  lemma {:induction false} UnmatchedMembers(codes: seq<string>, found: set<string>, norm: Norm)
    ensures forall c :: c in Unmatched(codes, found, norm) <==> c in codes && norm(c) !in found
    ensures |Unmatched(codes, found, norm)| <= |codes|
  {
    if codes != [] {
      var n := |codes| - 1;
      UnmatchedMembers(codes[..n], found, norm);
      assert codes == codes[..n] + [codes[n]];
    }
  }

  lemma LastType(uploads: seq<Upload>)
    requires uploads != []
    ensures var n := |uploads| - 1;
            TypesOf(uploads, Some(Completed)) ==
            TypesOf(uploads[..n], Some(Completed)) +
            if uploads[n].status.Completed? && uploads[n].docType != "" then {uploads[n].docType} else {}
  {
    assert uploads == uploads[..|uploads| - 1] + [uploads[|uploads| - 1]];
  }

  lemma OneMoreNorm(types: set<string>, t: string, norm: Norm)
    ensures Norms(types + {t}, norm) == Norms(types, norm) + {norm(t)}
  {
  }

  /** Every validated type comes from a counting upload, so there are no more types than uploads. */
  lemma {:induction false} FewerTypesThanUploads(uploads: seq<Upload>, norm: Norm)
    ensures |Norms(TypesOf(uploads, Some(Completed)), norm)| <= |Counting(uploads)|
  {
    if uploads != [] {
      var n := |uploads| - 1;
      FewerTypesThanUploads(uploads[..n], norm);
      LastType(uploads);
      OneMoreNorm(TypesOf(uploads[..n], Some(Completed)), uploads[n].docType, norm);
    }
  }

  /** The verdict: enough uploads to be counted, or every required code validated. */
  lemma CompleteMeans(checklist: seq<RequiredDocument>, uploads: seq<Upload>, norm: Norm)
    ensures Complete(checklist, uploads, norm) <==>
              || |Counting(uploads)| >= |RequiredCodes(checklist)|
              || RequiredNorms(checklist, norm) <= Norms(TypesOf(uploads, Some(Completed)), norm)
  {
    var codes, found := RequiredCodes(checklist), Norms(TypesOf(uploads, Some(Completed)), norm);
    UnmatchedMembers(codes, found, norm);
    HasFirst(Unmatched(codes, found, norm));
    if RequiredNorms(checklist, norm) <= found {
      assert forall c :: c in codes ==> norm(c) in RequiredNorms(checklist, norm);
    }
  }

  /** Below the count, missing lists exactly the required codes without a validated match; at or above it, none. */
  lemma MissingExactly(checklist: seq<RequiredDocument>, uploads: seq<Upload>, norm: Norm)
    ensures var codes, missing := RequiredCodes(checklist), CheckStatus(checklist, uploads, norm).missing;
            if |Counting(uploads)| >= |codes| then missing == []
            else forall c :: c in missing <==>
                               c in codes && norm(c) !in Norms(TypesOf(uploads, Some(Completed)), norm)
  {
    UnmatchedMembers(RequiredCodes(checklist), Norms(TypesOf(uploads, Some(Completed)), norm), norm);
  }

  /** A complete checklist has at least as many counting uploads as distinct required forms. */
  lemma CompleteNeedsUploads(checklist: seq<RequiredDocument>, uploads: seq<Upload>, norm: Norm)
    requires Complete(checklist, uploads, norm)
    ensures |Counting(uploads)| >= |RequiredNorms(checklist, norm)|
  {
    CompleteMeans(checklist, uploads, norm);
    FewerTypesThanUploads(uploads, norm);
    NormsAreFew(RequiredCodes(checklist), norm);
    var found := Norms(TypesOf(uploads, Some(Completed)), norm);
    if RequiredNorms(checklist, norm) <= found {
      SubsetCardinality(RequiredNorms(checklist, norm), found);
    }
  }

  /** There are at most as many forms as codes, and as many exactly when they are distinct. */
  lemma {:induction false} NormsAreFew(codes: seq<string>, norm: Norm)
    ensures |Norms(ToSet(codes), norm)| <= |codes|
    ensures Distinct(CodeNorms(codes, norm)) ==> |Norms(ToSet(codes), norm)| == |codes|
  {
    if codes != [] {
      var n := |codes| - 1;
      NormsAreFew(codes[..n], norm);
      assert codes == codes[..n] + [codes[n]];
      assert Norms(ToSet(codes), norm) == Norms(ToSet(codes[..n]), norm) + {norm(codes[n])};
      if Distinct(CodeNorms(codes, norm)) {
        LastNormIsNew(codes, norm);
      }
    }
  }

  lemma LastNormIsNew(codes: seq<string>, norm: Norm)
    requires codes != [] && Distinct(CodeNorms(codes, norm))
    ensures var n := |codes| - 1;
            Distinct(CodeNorms(codes[..n], norm)) && norm(codes[n]) !in Norms(ToSet(codes[..n]), norm)
  {
    var n, forms := |codes| - 1, CodeNorms(codes, norm);
    assert CodeNorms(codes[..n], norm) == forms[..n];
    forall c | c in codes[..n] ensures norm(c) != norm(codes[n]) {
      var i :| 0 <= i < n && codes[i] == c;
      assert forms[i] != forms[n];
    }
  }

  /** Collapse to a count: with distinct required forms, complete means enough uploads. */
  lemma CompleteIsCount(checklist: seq<RequiredDocument>, uploads: seq<Upload>, norm: Norm)
    requires Distinct(CodeNorms(RequiredCodes(checklist), norm))
    ensures Complete(checklist, uploads, norm) <==> |Counting(uploads)| >= |RequiredCodes(checklist)|
  {
    CompleteMeans(checklist, uploads, norm);
    NormsAreFew(RequiredCodes(checklist), norm);
    if Complete(checklist, uploads, norm) {
      CompleteNeedsUploads(checklist, uploads, norm);
    }
  }

  // ----- where the guard against too few uploads fails -----

  /** One validated upload for each code. */
  function OneEach(codes: seq<string>): seq<Upload> {
    seq(|codes|, i requires 0 <= i < |codes| => Upload(codes[i], Completed))
  }

  lemma {:induction false} AllCount(uploads: seq<Upload>)
    requires forall u :: u in uploads ==> Counts(u)
    ensures Counting(uploads) == uploads
  {
    if uploads != [] {
      var n := |uploads| - 1;
      assert uploads == uploads[..n] + [uploads[n]] && uploads[n] in uploads;
      assert forall u :: u in uploads[..n] ==> u in uploads;
      AllCount(uploads[..n]);
    }
  }

  lemma OneEachValidates(codes: seq<string>)
    requires "" !in codes
    ensures TypesOf(OneEach(codes), Some(Completed)) == ToSet(codes)
    ensures |Counting(OneEach(codes))| == |codes|
  {
    var uploads := OneEach(codes);
    assert forall u :: u in uploads ==> Counts(u);
    AllCount(uploads);
    TypesOfEach(codes);
  }

  lemma TypesOfEach(codes: seq<string>)
    requires "" !in codes
    ensures TypesOf(OneEach(codes), Some(Completed)) == ToSet(codes)
  {
    var uploads := OneEach(codes);
    assert forall i :: 0 <= i < |uploads| ==> uploads[i].docType in codes;
    forall c | c in codes ensures c in TypesOf(uploads, Some(Completed)) {
      var i :| 0 <= i < |codes| && codes[i] == c;
      assert uploads[i] in uploads;
    }
  }

  /** Two required codes of one form: completing all the others completes the checklist. */
  lemma TooFewUploads(checklist: seq<RequiredDocument>, norm: Norm, i: nat, j: nat) returns (uploads: seq<Upload>)
    requires var codes := RequiredCodes(checklist);
             "" !in codes && i < j < |codes| && norm(codes[i]) == norm(codes[j])
    ensures Complete(checklist, uploads, norm)
    ensures |Counting(uploads)| == |RequiredCodes(checklist)| - 1
  {
    var codes := RequiredCodes(checklist);
    var others := codes[..j] + codes[j + 1..];
    uploads := OneEach(others);
    OneEachValidates(others);
    CompleteMeans(checklist, uploads, norm);
    OthersCoverForms(codes, norm, i, j);
  }

  /** Leaving out one of two codes of one form loses no form. */
  lemma OthersCoverForms(codes: seq<string>, norm: Norm, i: nat, j: nat)
    requires i < j < |codes| && norm(codes[i]) == norm(codes[j])
    ensures Norms(ToSet(codes), norm) <= Norms(ToSet(codes[..j] + codes[j + 1..]), norm)
  {
    var others := codes[..j] + codes[j + 1..];
    assert others[i] == codes[i] && others[i] in ToSet(others);
    assert codes == codes[..j] + [codes[j]] + codes[j + 1..];
    assert forall c :: c in codes ==> c in others || c == codes[j];
  }

  /**
   The guard "never complete on fewer uploads than required" holds for every list of uploads
   iff no two required codes have the same comparison form.
   */
  lemma CollapseIff(checklist: seq<RequiredDocument>, norm: Norm)
    requires "" !in RequiredCodes(checklist)
    ensures (forall uploads :: Complete(checklist, uploads, norm) ==>
                                 |Counting(uploads)| >= |RequiredCodes(checklist)|)
            <==> Distinct(CodeNorms(RequiredCodes(checklist), norm))
  {
    var codes := RequiredCodes(checklist);
    var forms := CodeNorms(codes, norm);
    if Distinct(forms) {
      forall uploads | Complete(checklist, uploads, norm) ensures |Counting(uploads)| >= |codes| {
        CompleteIsCount(checklist, uploads, norm);
      }
    } else {
      var i, j :| 0 <= i < j < |forms| && forms[i] == forms[j];
      var uploads := TooFewUploads(checklist, norm, i, j);
    }
  }

  // ----- checklist validation -----

  /** An item of a checklist value: not an object, an object without a text code, or one with it. */
  datatype Item = NotObject | NoCode | Code(code: string)

  datatype Verdict = Accepted | BadItem | Duplicate(code: string)

  method ValidateChecklist(items: seq<Item>) returns (verdict: Verdict)
    ensures verdict.Accepted? <==> Distinct(items) && forall item :: item in items ==> item.Code? && item.code != ""
    ensures verdict.BadItem? ==> exists item :: item in items && (!item.Code? || item.code == "")
    ensures verdict.Duplicate? ==> exists i, j :: 0 <= i < j < |items| && items[i] == items[j] == Code(verdict.code)
  {
    var seen: set<string> := {};
    for i := 0 to |items|
      invariant forall k :: 0 <= k < i ==> items[k].Code? && items[k].code != ""
      invariant Distinct(items[..i])
      invariant forall c :: c in seen <==> Code(c) in items[..i]
    {
      if !items[i].Code? || items[i].code == "" {
        assert items[i] in items;
        return BadItem;
      }
      if items[i].code in seen {
        var k :| 0 <= k < i && items[k] == items[i];
        return Duplicate(items[i].code);
      }
      seen := seen + {items[i].code};
      assert items[..i + 1] == items[..i] + [items[i]];
    }
    assert items[..|items|] == items;
    return Accepted;
  }

  /** Validation compares codes as they are, so it lets through checklists that fail the guard. */
  lemma CollisionYetTooFew(a: string, b: string, norm: Norm)
      returns (checklist: seq<RequiredDocument>, uploads: seq<Upload>)
    requires a != "" && b != "" && a != b && norm(a) == norm(b)
    ensures Distinct([Code(a), Code(b)]) && checklist == [RequiredDocument(a, true), RequiredDocument(b, true)]
    ensures Complete(checklist, uploads, norm) && |Counting(uploads)| == 1
  {
    checklist := [RequiredDocument(a, true), RequiredDocument(b, true)];
    assert RequiredCodes(checklist[..1]) == RequiredCodes(checklist[..0]) + [a];
    assert checklist[..1][..0] == checklist[..0] == [];
    assert RequiredCodes(checklist) == [a, b];
    uploads := TooFewUploads(checklist, norm, 0, 1);
  }

  // ----- the code's own comparison form, on ASCII text -----

  function Lower(c: char): char {
    if 'A' <= c <= 'Z' then 'a' + (c - 'A') else c
  }

  predicate IsAlphanumeric(c: char) {
    'a' <= c <= 'z' || 'A' <= c <= 'Z' || '0' <= c <= '9'
  }

  function NormOf(c: char): string {
    if IsAlphanumeric(Lower(c)) then [Lower(c)] else ""
  }

  /** Lower case, letters and digits only. */
  function AsciiNorm(code: string): string {
    if code == "" then "" else NormOf(code[0]) + AsciiNorm(code[1..])
  }

  lemma {:induction false} NormConcat(a: string, b: string)
    ensures AsciiNorm(a + b) == AsciiNorm(a) + AsciiNorm(b)
  {
    if a == "" {
      assert a + b == b;
    } else {
      assert (a + b)[0] == a[0] && (a + b)[1..] == a[1..] + b;
      NormConcat(a[1..], b);
      Reassociate(NormOf(a[0]), AsciiNorm(a[1..]), AsciiNorm(b));
    }
  }

  lemma NormOfCharacter(c: char)
    ensures AsciiNorm([c]) == if 'A' <= c <= 'Z' then ['a' + (c - 'A')]
                              else if 'a' <= c <= 'z' || '0' <= c <= '9' then [c] else ""
  {
    assert [c][1..] == "";
  }

  /** Character by character: a letter goes in lower case, a digit as it is, anything else not at all. */
  lemma NormByCharacter(before: string, c: char, after: string)
    ensures AsciiNorm("") == ""
    ensures AsciiNorm(before + [c] + after) ==
            AsciiNorm(before) +
            (if 'A' <= c <= 'Z' then ['a' + (c - 'A')] else if 'a' <= c <= 'z' || '0' <= c <= '9' then [c] else "") +
            AsciiNorm(after)
  {
    NormConcat(before + [c], after);
    NormConcat(before, [c]);
    NormOfCharacter(c);
  }

  function Lowered(code: string): string {
    if code == "" then "" else [Lower(code[0])] + Lowered(code[1..])
  }

  /** Case is one way two codes collide. */
  lemma {:induction false} CaseIsIgnored(code: string)
    ensures AsciiNorm(Lowered(code)) == AsciiNorm(code)
  {
    if code != "" {
      CaseIsIgnored(code[1..]);
      assert Lowered(code)[0] == Lower(code[0]) && Lowered(code)[1..] == Lowered(code[1..]);
    }
  }

  /** So are separators and every other character that is not a letter or digit. */
  lemma SeparatorsAreIgnored(before: string, c: char, after: string)
    requires !IsAlphanumeric(c)
    ensures AsciiNorm(before + [c] + after) == AsciiNorm(before + after)
  {
    NormByCharacter(before, c, after);
    NormConcat(before, after);
  }

  const TWO_SPELLINGS := [RequiredDocument("AOA", true), RequiredDocument("aoa", true)]

  /** Validation accepts the codes "AOA" and "aoa" side by side, and a single completed upload then
      completes a checklist of two required documents. */
  lemma ValidatedYetTooFew() returns (uploads: seq<Upload>)
    ensures Distinct([Code("AOA"), Code("aoa")]) && |RequiredCodes(TWO_SPELLINGS)| == 2
    ensures Complete(TWO_SPELLINGS, uploads, AsciiNorm) && |Counting(uploads)| == 1
  {
    assert "AOA"[1..] == "OA" && "OA"[1..] == "A" && "A"[1..] == "";
    assert Lowered("AOA") == "aoa";
    CaseIsIgnored("AOA");
    var checklist;
    checklist, uploads := CollisionYetTooFew("AOA", "aoa", AsciiNorm);
    assert |RequiredCodes(checklist)| == 2 by {
      assert RequiredCodes(checklist[..1]) == RequiredCodes(checklist[..0]) + ["AOA"];
      assert checklist[..1][..0] == checklist[..0] == [];
    }
  }
}
