/** Header checks on a REW log file: `is_valid_rew_file` and
    `extract_location` (build_database.py). A file's text is the list that
    `open(fp, encoding='utf-8').readlines()` returns, or `None` when opening
    or decoding fails. */
module Header {
  import opened Wrappers
  import opened Text

  const RequiredCalFile: string := "7097828_90deg.txt"
  const CalibrationLine: string := "Mic/meter cal: " + RequiredCalFile
  const RewBanner: string := "SPL log data saved by REW"

  /** `lines[:15]` */
  function Early(lines: seq<string>): (r: seq<string>)
    ensures |r| <= 15 && |r| <= |lines| && r == lines[..|r|]
    ensures |lines| <= 15 ==> r == lines
    ensures |r| == if |lines| <= 15 then |lines| else 15
  {
    if |lines| <= 15 then lines else lines[..15]
  }

  /** `any(pat in l for l in ls)` */
  predicate AnyContains(ls: seq<string>, pat: string)
  {
    exists i :: 0 <= i < |ls| && Contains(ls[i], pat)
  }

  /** `is_valid_rew_file(fp)`. An empty file reaches `lines[0]`, which
      raises, and the bare `except` turns that into `False`. */
  predicate IsValidRewFile(text: Option<seq<string>>)
  {
    match text
    case None => false
    case Some(lines) =>
      var early := Early(lines);
      if AnyContains(early, "VirtualMic.txt") then false
      else if AnyContains(early, "LAS") || AnyContains(early, "LAeq") then false
      else if |lines| == 0 then false
      else
        StartsWith(lines[0], RewBanner) &&
        AnyContains(early, CalibrationLine) &&
        AnyContains(early, "LCS")
  }

  /** A file passes exactly when it was read, none of its first 15 lines
      mentions a virtual microphone or an A-weighted metric, its first line
      is REW's banner, and its first 15 lines name the required calibration
      file and the LCS metric. */
  lemma IsValidRewFileIff(text: Option<seq<string>>)
    ensures IsValidRewFile(text) <==>
      text.Some? && |text.value| > 0 &&
      (forall i :: 0 <= i < |text.value| && i < 15 ==>
         !Contains(text.value[i], "VirtualMic.txt") &&
         !Contains(text.value[i], "LAS") && !Contains(text.value[i], "LAeq")) &&
      StartsWith(text.value[0], RewBanner) &&
      (exists i :: 0 <= i < |text.value| && i < 15 && Contains(text.value[i], CalibrationLine)) &&
      (exists i :: 0 <= i < |text.value| && i < 15 && Contains(text.value[i], "LCS"))
  {
    if text.Some? {
      var lines := text.value;
      var early := Early(lines);
      assert forall i :: 0 <= i < |lines| && i < 15 ==> i < |early| && early[i] == lines[i];
    }
  }

  /** A file that cannot be read, or has no lines, is never valid. */
  lemma UnreadableOrEmptyIsInvalid()
    ensures !IsValidRewFile(None)
    ensures !IsValidRewFile(Some([]))
  {
  }

  datatype Location = Balcony | Nightclub

  const Keywords: seq<string> := ["nightclub", "prohibition", "club", "site"]

  /** `extract_location(fp)`: line 1, lower-cased, must mention a note and
      one of the keywords; a missing line or an unreadable file gives the
      default. */
  function ExtractLocation(text: Option<seq<string>>): Location
  {
    match text
    case None => Balcony
    case Some(lines) =>
      if |lines| < 2 then Balcony
      else
        var notes := Lower(lines[1]);
        if !Contains(notes, "note") then Balcony
        else if exists k :: 0 <= k < |Keywords| && Contains(notes, Keywords[k]) then Nightclub
        else Balcony
  }

  /** Every occurrence of "nightclub" holds an occurrence of "club". */
  lemma NightclubMentionsClub(s: string)
    requires Contains(s, "nightclub")
    ensures Contains(s, "club")
  {
    ContainsIffOccurs(s, "nightclub");
    var i :| OccursAt(s, "nightclub", i);
    assert s[i + 5..i + 9] == s[i..i + 9][5..9] == "club";
    assert OccursAt(s, "club", i + 5);
    ContainsIffOccurs(s, "club");
  }

  /** The tag is `Nightclub` exactly when the second line exists and, once
      lower-cased, mentions "note" and one of "club", "prohibition" or
      "site" ("nightclub" adds nothing, as it contains "club"); every other
      file, readable or not, is tagged `Balcony`. */
  lemma ExtractLocationIff(text: Option<seq<string>>)
    ensures ExtractLocation(text) == Nightclub <==>
      text.Some? && |text.value| >= 2 &&
      Contains(Lower(text.value[1]), "note") &&
      (Contains(Lower(text.value[1]), "club") || Contains(Lower(text.value[1]), "prohibition") ||
       Contains(Lower(text.value[1]), "site"))
  {
    if text.Some? && |text.value| >= 2 {
      var notes := Lower(text.value[1]);
      if Contains(notes, "nightclub") {
        NightclubMentionsClub(notes);
      }
      if Contains(notes, "club") {
        assert Contains(notes, Keywords[2]);
      }
      if Contains(notes, "prohibition") {
        assert Contains(notes, Keywords[1]);
      }
      if Contains(notes, "site") {
        assert Contains(notes, Keywords[3]);
      }
    }
  }
}
