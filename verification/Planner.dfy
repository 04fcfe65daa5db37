/** The deterministic iteration plan and the import names it prints (endurance.rs). */
module Planner {
  import opened Decimal

  const MAX_CAMPAIGN_ID_LEN := 48

  datatype Reader = Cursor | Paging
  datatype Failure = Clean | BeforeCommit | AfterCommit

  datatype IterationPlan = IterationPlan(
    campaignId: string, sequence: nat, reader: Reader, failure: Failure, importName: string)

  function ReaderText(reader: Reader): (t: string)
    ensures |t| == 6 && '_' !in t
  {
    match reader case Cursor => "cursor" case Paging => "paging"
  }

  predicate IsAlphanumeric(c: char) { IsDigit(c) || 'a' <= c <= 'z' || 'A' <= c <= 'Z' }

  /** `validate_campaign_id` */
  predicate ValidCampaignId(id: string) {
    1 <= |id| <= MAX_CAMPAIGN_ID_LEN && IsAlphanumeric(id[0])
    && forall i | 0 <= i < |id| :: IsAlphanumeric(id[i]) || id[i] == '-' || id[i] == '_'
  }

  function ReaderOf(sequence: nat): Reader { if sequence % 2 == 1 then Cursor else Paging }

  function FailureOf(sequence: nat): Failure {
    if sequence % 50 == 24 then BeforeCommit else if sequence % 50 == 49 then AfterCommit else Clean
  }

  function ImportName(campaignId: string, sequence: nat): string {
    "endurance_" + campaignId + "_" + Padded(sequence, 6) + "_" + ReaderText(ReaderOf(sequence))
  }

  /** `plan_iteration` */
  function PlanIteration(campaignId: string, sequence: nat): Option<IterationPlan> {
    if !ValidCampaignId(campaignId) || sequence == 0 then None
    else Some(IterationPlan(campaignId, sequence, ReaderOf(sequence), FailureOf(sequence), ImportName(campaignId, sequence)))
  }

  predicate NameChar(c: char) { '0' <= c <= '9' || 'a' <= c <= 'z' || 'A' <= c <= 'Z' || c == '-' || c == '_' }

  predicate NameChars(text: string) { forall c | c in text :: NameChar(c) }

  /** A planned name ends with its reader and is 25 to 86 letters, digits, dashes and underscores long. */
  lemma PlannedNameShape(campaignId: string, s: nat)
    requires s <= U64_MAX && PlanIteration(campaignId, s).Some?
    ensures var name := PlanIteration(campaignId, s).value.importName;
      25 <= |name| <= 86 && NameChars(name) && name[|name| - 7..] == (if s % 2 == 1 then "_cursor" else "_paging")
  {
    PaddedShape(s);
    NamePieces(campaignId, s);
    var text, reader := Padded(s, 6), ReaderText(ReaderOf(s));
    assert "_" + reader == (if s % 2 == 1 then "_cursor" else "_paging");
    hide Padded, ReaderText, ReaderOf, NameChar;
    var name := ImportName(campaignId, s);
    assert name == "endurance_" + campaignId + "_" + text + ("_" + reader);
  }

  lemma PaddedShape(s: nat)
    requires s <= U64_MAX
    ensures 6 <= |Padded(s, 6)| <= 20 && NameChars(Padded(s, 6))
  {
    assert s < Pow10(20) by { assert Pow10(10) == 10_000_000_000; }
    DigitsLength(s, 20);
    hide Digits;
  }

  lemma NamePieces(campaignId: string, s: nat)
    requires ValidCampaignId(campaignId)
    ensures NameChars("endurance_") && NameChars(campaignId) && NameChars("_") && NameChars(ReaderText(ReaderOf(s)))
  {
    forall c | c in campaignId ensures NameChar(c) { }
  }

  // -------------------------------------------------------------- validation --

  function StripPrefix(s: string, prefix: string): Option<string> {
    if prefix <= s then Some(s[|prefix|..]) else None
  }

  /** `rsplit_once(c)`: around the last c. */
  function RSplitOnce(s: string, c: char): (r: Option<(string, string)>)
    ensures r.None? <==> c !in s
    ensures r.Some? ==> s == r.value.0 + [c] + r.value.1 && c !in r.value.1
  {
    if s == [] then None
    else if s[|s| - 1] == c then Some((s[..|s| - 1], []))
    else match RSplitOnce(s[..|s| - 1], c)
      case None => None
      case Some(p) => assert s == s[..|s| - 1] + [s[|s| - 1]]; Some((p.0, p.1 + [s[|s| - 1]]))
  }

  lemma {:induction false} RSplitOnceOf(a: string, c: char, b: string)
    requires c !in b
    ensures RSplitOnce(a + [c] + b, c) == Some((a, b))
  {
    var s := a + [c] + b;
    if b == [] {
      assert s[..|s| - 1] == a;
    } else {
      var n := |b| - 1;
      RSplitOnceOf(a, c, b[..n]);
      assert s[..|s| - 1] == a + [c] + b[..n];
      assert b[..n] + [b[n]] == b;
    }
  }

  predicate KnownReader(text: string) { text == "cursor" || text == "paging" }

  /** `validate_endurance_import_name`, returning the identity it accepts. */
  function ParseImportName(name: string): Option<(string, nat)> {
    match StripPrefix(name, "endurance_")
    case None => None
    case Some(rest) =>
      match RSplitOnce(rest, '_')
      case None => None
      case Some((identity, reader)) =>
        if !KnownReader(reader) then None
        else
          match RSplitOnce(identity, '_')
          case None => None
          case Some((campaignId, sequenceText)) =>
            if !ValidCampaignId(campaignId) then None
            else if |sequenceText| < 6 || !AllDigits(sequenceText) then None
            else
              match ParseU64(sequenceText)
              case None => None
              case Some(sequence) =>
                match PlanIteration(campaignId, sequence)
                case None => None
                case Some(plan) => if name != plan.importName then None else Some((campaignId, sequence))
  }

  /** Underscores and digits in the campaign id never confuse the split: what was printed is read back. */
  lemma ParsePrinted(campaignId: string, sequence: nat)
    requires ValidCampaignId(campaignId) && 1 <= sequence <= U64_MAX
    ensures ParseImportName(ImportName(campaignId, sequence)) == Some((campaignId, sequence))
  {
    var text, reader := Padded(sequence, 6), ReaderText(ReaderOf(sequence));
    var name := ImportName(campaignId, sequence);
    var identity := campaignId + "_" + text;
    assert KnownReader(reader) && '_' !in text;
    assert PlanIteration(campaignId, sequence).value.importName == name;
    assert identity == campaignId + ['_'] + text;
    PrintedPrefix(name, campaignId, text, reader);
    hide Padded, RSplitOnce, ParseU64, ImportName, ReaderText, ReaderOf, StripPrefix, ValidCampaignId, PlanIteration, KnownReader;
    RSplitOnceOf(identity, '_', reader);
    RSplitOnceOf(campaignId, '_', text);
    ParsePadded(sequence, 6);
  }

  lemma PrintedPrefix(name: string, campaignId: string, text: string, reader: string)
    requires name == "endurance_" + campaignId + "_" + text + "_" + reader
    ensures StripPrefix(name, "endurance_") == Some(campaignId + "_" + text + ['_'] + reader)
  {
    assert name == "endurance_" + (campaignId + "_" + text + ['_'] + reader);
  }

  /** The validator accepts exactly the names the planner can print. */
  lemma ValidatorExactly(name: string, campaignId: string, sequence: nat)
    ensures ParseImportName(name) == Some((campaignId, sequence)) <==>
            ValidCampaignId(campaignId) && 1 <= sequence <= U64_MAX && name == ImportName(campaignId, sequence)
  {
    if ValidCampaignId(campaignId) && 1 <= sequence <= U64_MAX && name == ImportName(campaignId, sequence) {
      ParsePrinted(campaignId, sequence);
    }
  }

  /** One name, one iteration: deleting by import name touches no other iteration of any campaign. */
  lemma PlannerInjective(a: string, s: nat, b: string, t: nat)
    requires ValidCampaignId(a) && ValidCampaignId(b) && 1 <= s <= U64_MAX && 1 <= t <= U64_MAX
    requires ImportName(a, s) == ImportName(b, t)
    ensures a == b && s == t
  {
    ParsePrinted(a, s);
    ParsePrinted(b, t);
  }

  // ---------------------------------------------------------------- cleanup --

  /** `cleanup_business`: deletes the rows of one validated import name, or refuses. */
  method CleanupBusiness<Key(==)>(table: map<(string, Key), nat>, importName: string) returns (left: map<(string, Key), nat>, deleted: Option<nat>)
    ensures deleted.None? ==> left == table && ParseImportName(importName).None?
    ensures deleted.Some? ==> ParseImportName(importName).Some? && |table| == |left| + deleted.value
    ensures forall c, s, k | ValidCampaignId(c) && 1 <= s <= U64_MAX && (ImportName(c, s), k) in table ::
      (ImportName(c, s), k) !in left <==> ParseImportName(importName) == Some((c, s))
    ensures left.Keys <= table.Keys && forall k | k in left :: left[k] == table[k]
  {
    if ParseImportName(importName).None? { return table, None; }
    left := map k | k in table && k.0 != importName :: table[k];
    var gone := map k | k in table && k.0 == importName :: table[k];
    assert table.Keys == left.Keys + gone.Keys;
    deleted := Some(|gone|);
    forall c, s, k | ValidCampaignId(c) && 1 <= s <= U64_MAX && (ImportName(c, s), k) in table
      ensures (ImportName(c, s), k) !in left <==> ParseImportName(importName) == Some((c, s))
    {
      ValidatorExactly(importName, c, s);
    }
  }
}
