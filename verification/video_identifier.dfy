/**
 * The short video identifier both AI-Hub scripts derive from a video file
 * name: the first substring matching `\d{2}-\d{2}-\d{2}_[a-z]` (a time stamp
 * and a camera letter, as in `..._17-16-00_b_...`), with its dashes removed
 * (`171600_b`: only the dashes go, the underscore stays). The fixed-width pattern is scanned directly instead of through
 * a regular-expression engine.
 */
module VideoIdentifier {
  import opened Wrappers
  import PyStr

  /** The pattern is ten characters wide. */
  const PatternWidth: nat := 10

  /** The ten characters at `i` read `dd-dd-dd_x`, with `x` a lower-case ASCII letter. */
  predicate MatchesAt(s: string, i: nat) {
    i + PatternWidth <= |s|
    && PyStr.IsDigit(s[i]) && PyStr.IsDigit(s[i + 1]) && s[i + 2] == '-'
    && PyStr.IsDigit(s[i + 3]) && PyStr.IsDigit(s[i + 4]) && s[i + 5] == '-'
    && PyStr.IsDigit(s[i + 6]) && PyStr.IsDigit(s[i + 7]) && s[i + 8] == '_'
    && 'a' <= s[i + 9] <= 'z'
  }

  /** `re.search` from position `from`: the leftmost match at or after it. */
  function SearchFrom(s: string, from: nat): (r: Option<nat>)
    ensures r.Some? ==> from <= r.value && MatchesAt(s, r.value)
    ensures r.Some? ==> forall j :: from <= j < r.value ==> !MatchesAt(s, j)
    ensures r.None? ==> forall j :: from <= j ==> !MatchesAt(s, j)
    decreases |s| - from
  {
    if from + PatternWidth > |s| then None
    else if MatchesAt(s, from) then Some(from)
    else SearchFrom(s, from + 1)
  }

  /** `str.replace('-', '')`. */
  function RemoveDashes(s: string): (r: string)
    ensures forall i :: 0 <= i < |r| ==> r[i] != '-'
    ensures |r| <= |s|
  {
    if s == [] then []
    else (if s[0] == '-' then [] else [s[0]]) + RemoveDashes(s[1..])
  }

  /** The identifier a match at `i` stands for: its six digits, the underscore and the letter. */
  function IdentifierAt(s: string, i: nat): string
    requires MatchesAt(s, i)
  {
    [s[i], s[i + 1], s[i + 3], s[i + 4], s[i + 6], s[i + 7], '_', s[i + 9]]
  }

  /** Eight characters: six ASCII digits, `_`, one lower-case ASCII letter. */
  predicate IsIdentifier(id: string) {
    |id| == 8 && (forall k :: 0 <= k < 6 ==> PyStr.IsDigit(id[k])) && id[6] == '_' && 'a' <= id[7] <= 'z'
  }

  /**
   * The identifier of a video name, or None when the name holds no match
   * (the caller then prints a warning, or raises).
   */
  function NameBase(videoName: string): (r: Option<string>)
    ensures r.None? <==> forall i: nat :: !MatchesAt(videoName, i)
    ensures r.Some? ==> IsIdentifier(r.value)
    ensures r.Some? ==>
      exists i: nat :: (MatchesAt(videoName, i)
        && (forall j :: 0 <= j < i ==> !MatchesAt(videoName, j))
        && r.value == IdentifierAt(videoName, i))
  {
    match SearchFrom(videoName, 0)
    case None => None
    case Some(i) =>
      RemoveDashesOfMatch(videoName, i);
      Some(RemoveDashes(videoName[i..i + PatternWidth]))
  }

  lemma {:induction false} RemoveDashesAppend(a: string, b: string)
    ensures RemoveDashes(a + b) == RemoveDashes(a) + RemoveDashes(b)
  {
    if a == [] {
      assert a + b == b;
    } else {
      assert (a + b)[1..] == a[1..] + b;
      RemoveDashesAppend(a[1..], b);
    }
  }

  lemma {:induction false} RemoveDashesFree(a: string)
    requires forall k :: 0 <= k < |a| ==> a[k] != '-'
    ensures RemoveDashes(a) == a
  {
    if a != [] {
      RemoveDashesFree(a[1..]);
    }
  }

  /** Deleting the dashes of a matched substring leaves exactly the identifier. */
  lemma RemoveDashesOfMatch(s: string, i: nat)
    requires MatchesAt(s, i)
    ensures RemoveDashes(s[i..i + PatternWidth]) == IdentifierAt(s, i)
  {
    var p, q, r := s[i..i + 2], s[i + 3..i + 5], s[i + 6..i + 10];
    assert s[i..i + PatternWidth] == p + "-" + q + "-" + r;
    RemoveDashesAppend(p + "-" + q + "-", r);
    RemoveDashesAppend(p + "-" + q, "-");
    RemoveDashesAppend(p + "-", q);
    RemoveDashesAppend(p, "-");
    assert RemoveDashes("-") == [] by {
      assert "-"[1..] == [];
    }
    RemoveDashesFree(p);
    RemoveDashesFree(q);
    RemoveDashesFree(r);
    assert RemoveDashes(s[i..i + PatternWidth]) == p + q + r;
  }

  /** The example name from the dataset's documentation. */
  const ExampleName: string := "C_1_31_jap_cl_09-01_17-16-00_b_set_DF2.mp4"

  lemma ExampleMatch()
    ensures MatchesAt(ExampleName, 20)
  {
  }

  lemma ExampleStamp()
    ensures ExampleName[20] == '1' && ExampleName[21] == '7' && ExampleName[23] == '1' && ExampleName[24] == '6'
    ensures ExampleName[26] == '0' && ExampleName[27] == '0' && ExampleName[29] == 'b'
  {
  }

  lemma ExampleNoEarlierMatch()
    ensures forall j :: 0 <= j < 20 ==> !MatchesAt(ExampleName, j)
  {
    var s := ExampleName;
    forall j | 0 <= j < 20 ensures !MatchesAt(s, j) {
      if j != 14 {
        assert s[j + 2] != '-';
      } else {
        assert s[j + 5] != '-';
      }
    }
  }

  /** The example name yields `171600_b`, not `171600b`. */
  lemma DatasetExample(name: string)
    requires name == ExampleName
    ensures NameBase(name) == Some("171600_b")
  {
    ExampleMatch();
    ExampleNoEarlierMatch();
    FirstMatch(name, 20);
    ExampleStamp();
    assert IdentifierAt(name, 20) == ['1', '7', '1', '6', '0', '0', '_', 'b'];
  }

  /** The identifier comes from the first match. */
  lemma FirstMatch(s: string, i: nat)
    requires MatchesAt(s, i) && forall j :: 0 <= j < i ==> !MatchesAt(s, j)
    ensures NameBase(s) == Some(IdentifierAt(s, i))
  {
    assert SearchFrom(s, 0) == Some(i);
    RemoveDashesOfMatch(s, i);
  }

  /** A name with a date but no `dd-dd-dd_x` stamp has no identifier. */
  lemma NoStampExample()
    ensures NameBase("C_1_31_jap_cl_09-01_set_DF2.mp4") == None
  {
    var s := "C_1_31_jap_cl_09-01_set_DF2.mp4";
    assert forall k :: 0 <= k < |s| && s[k] == '-' ==> k == 16;
  }
}
