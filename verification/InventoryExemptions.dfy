/** The exemptions at the end of validate_inventory in
    scripts/i18n_inventory.py: which findings they excuse, and when nothing is
    left to report. */
module InventoryExemptions {

  datatype Finding = Finding(page: string, file: string, kind: string, line: int, column: int, text: string)

  /** An entry of the manifest; one whose fields are not those of an exemption
      has no finding. */
  datatype Exemption = Malformed | Exempts(finding: Finding, classification: string)

  datatype Problem =
    | InvalidSchema(index: nat) | NotExact(index: nat) | Duplicate(index: nat) | Unused(finding: Finding)
    | Reported(finding: Finding)

  const EXEMPTIBLE_KINDS: set<string> := {"html-text", "html-attribute", "html-code", "html-pre", "js-call-sink", "js-sink"}
  const TECHNICAL_CLASSIFICATIONS: set<string> := {"code", "pre", "protocol", "sample"}

  predicate Exact(e: Exemption, owners: map<string, string>)
    requires e.Exempts?
  {
    && e.finding.kind in EXEMPTIBLE_KINDS && e.finding.line >= 1 && e.finding.column >= 1 && e.finding.text != ""
    && e.classification in TECHNICAL_CLASSIFICATIONS
    && e.finding.file in owners && owners[e.finding.file] == e.finding.page
  }

  predicate Sound(e: Exemption, owners: map<string, string>) {
    e.Exempts? && Exact(e, owners)
  }

  /** What the sound ones among the first k exemptions excuse. */
  ghost function Excused(exemptions: seq<Exemption>, k: nat, owners: map<string, string>): set<Finding>
    requires k <= |exemptions|
  {
    set i | 0 <= i < k && Sound(exemptions[i], owners) :: exemptions[i].finding
  }

  /** A perfect exemption: sound, the first for its finding, and of use. */
  ghost predicate Perfect(exemptions: seq<Exemption>, i: nat, findings: seq<Finding>, owners: map<string, string>)
    requires i < |exemptions|
  {
    && Sound(exemptions[i], owners)
    && exemptions[i].finding !in Excused(exemptions, i, owners)
    && exemptions[i].finding in findings
  }

  method CollectExemptions(findings: seq<Finding>, exemptions: seq<Exemption>, owners: map<string, string>)
    returns (exempted: set<Finding>, errors: seq<Problem>)
    ensures exempted == Excused(exemptions, |exemptions|, owners)
    ensures errors == [] <==> forall i :: 0 <= i < |exemptions| ==> Perfect(exemptions, i, findings, owners)
    ensures forall e :: e in errors ==> !e.Reported?
  {
    hide Exact;
    exempted, errors := {}, [];
    var i := 0;
    while i < |exemptions|
      invariant i <= |exemptions| && exempted == Excused(exemptions, i, owners)
      invariant errors == [] <==> forall k :: 0 <= k < i ==> Perfect(exemptions, k, findings, owners)
      invariant forall e :: e in errors ==> !e.Reported?
    {
      ExcusedStep(exemptions, i, owners);
      var e := exemptions[i];
      ghost var was := errors;
      if e.Malformed? {
        errors := errors + [InvalidSchema(i)];
      } else if !Exact(e, owners) {
        errors := errors + [NotExact(i)];
      } else if e.finding in exempted {
        errors := errors + [Duplicate(i)];
      } else {
        exempted := exempted + {e.finding};
        if e.finding !in findings {
          errors := errors + [Unused(e.finding)];
        }
      }
      assert was <= errors && (errors == was <==> Perfect(exemptions, i, findings, owners));
      i := i + 1;
    }
  }

  lemma ExcusedStep(exemptions: seq<Exemption>, i: nat, owners: map<string, string>)
    requires i < |exemptions|
    ensures Excused(exemptions, i + 1, owners) ==
      Excused(exemptions, i, owners) + if Sound(exemptions[i], owners) then {exemptions[i].finding} else {}
  {
    hide Exact;
    forall f | f in Excused(exemptions, i + 1, owners)
      ensures f in Excused(exemptions, i, owners) || (Sound(exemptions[i], owners) && f == exemptions[i].finding)
    {
      var k :| 0 <= k < i + 1 && Sound(exemptions[k], owners) && exemptions[k].finding == f;
    }
    forall k | 0 <= k < i && Sound(exemptions[k], owners) ensures exemptions[k].finding in Excused(exemptions, i + 1, owners) {
    }
  }

  /** The findings that are reported: those on strict pages that no sound
      exemption names. And nothing is wrong exactly if there is none of them and
      every exemption is perfect. */
  method Reconcile(findings: seq<Finding>, exemptions: seq<Exemption>, owners: map<string, string>, strict: set<string>)
    returns (errors: seq<Problem>)
    ensures forall f :: Reported(f) in errors <==>
      f in findings && f.page in strict && f !in Excused(exemptions, |exemptions|, owners)
    ensures errors == [] <==>
      && (forall i :: 0 <= i < |exemptions| ==> Perfect(exemptions, i, findings, owners))
      && forall f :: f in findings && f.page in strict ==> f in Excused(exemptions, |exemptions|, owners)
  {
    hide Perfect, Excused;
    var exempted, before := CollectExemptions(findings, exemptions, owners);
    var reports := [];
    var i := 0;
    while i < |findings|
      invariant i <= |findings|
      invariant forall f :: Reported(f) in reports <==> f in findings[..i] && f.page in strict && f !in exempted
      invariant reports == [] <==> forall f :: f in findings[..i] && f.page in strict ==> f in exempted
    {
      assert forall f :: f in findings[..i + 1] <==> f in findings[..i] || f == findings[i];
      if findings[i].page in strict && findings[i] !in exempted {
        reports := reports + [Reported(findings[i])];
      }
      i := i + 1;
    }
    assert findings[..i] == findings;
    errors := before + reports;
    assert forall f :: Reported(f) in errors <==> Reported(f) in reports;
    assert errors == [] <==> before == [] && reports == [];
  }

  predicate Apart(a: Exemption, b: Exemption) {
    a.Exempts? && b.Exempts? && a.finding != b.finding
  }

  lemma PerfectApart(exemptions: seq<Exemption>, i: nat, j: nat, findings: seq<Finding>, owners: map<string, string>)
    requires i < j < |exemptions| && Perfect(exemptions, i, findings, owners) && Perfect(exemptions, j, findings, owners)
    ensures Apart(exemptions[i], exemptions[j])
  {
    assert exemptions[i].finding in Excused(exemptions, j, owners);
  }

  /** With all pages strict, silence means that the exemptions name exactly the
      findings, each once. */
  lemma SilenceIsEquality(findings: seq<Finding>, exemptions: seq<Exemption>, owners: map<string, string>)
    requires forall i :: 0 <= i < |exemptions| ==> Perfect(exemptions, i, findings, owners)
    requires forall f :: f in findings ==> f in Excused(exemptions, |exemptions|, owners)
    ensures Excused(exemptions, |exemptions|, owners) == set f | f in findings
    ensures forall i, j :: 0 <= i < j < |exemptions| ==> Apart(exemptions[i], exemptions[j])
  {
    hide Exact, Apart;
    forall i, j | 0 <= i < j < |exemptions| ensures Apart(exemptions[i], exemptions[j]) {
      PerfectApart(exemptions, i, j, findings, owners);
    }
    forall f | f in Excused(exemptions, |exemptions|, owners) ensures f in findings {
      var k :| 0 <= k < |exemptions| && Sound(exemptions[k], owners) && exemptions[k].finding == f;
      assert Perfect(exemptions, k, findings, owners);
    }
  }
}
