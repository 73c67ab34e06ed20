/**
 * The classrooms page (src/pages/classrooms.tsx): the two-activity preview of
 * a classroom card with its "+k more activities" line, and the key that the
 * classroom dialog's age-group select starts on.
 */
module Classrooms {
  import opened Text
  import opened Lists
  import opened Wrappers

  datatype Activity = Activity(id: string, name: string, time: string, description: string)

  datatype ClassroomTeacher = ClassroomTeacher(id: string, name: string, avatar: string, role: string)

  datatype Classroom = Classroom(
    id: string,
    name: string,
    ageGroup: string,
    capacity: int,
    currentOccupancy: int,
    teachers: seq<ClassroomTeacher>,
    activities: seq<Activity>,
    color: string)

  /** `classroom.activities.slice(0, 2)`: the first two activities, or all of them if fewer. */
  function ActivityPreview(activities: seq<Activity>): (r: seq<Activity>)
    ensures |r| == if |activities| < 2 then |activities| else 2
    ensures r <= activities
  {
    activities[..if |activities| < 2 then |activities| else 2]
  }

  /** The "+k more activities" line: present iff more than two activities, with k the number not previewed. */
  function MoreActivities(activities: seq<Activity>): (r: Option<nat>)
    ensures r.Some? <==> |activities| > 2
    ensures r.Some? ==> r.value > 0
  {
    if |activities| > 2 then Some(|activities| - 2) else None
  }

  /** Every activity is either previewed or counted in the "+k more" line, and none twice. */
  lemma PreviewAccountsForAll(activities: seq<Activity>)
    ensures MoreActivities(activities).Some? ==>
      |ActivityPreview(activities)| + MoreActivities(activities).value == |activities|
    ensures MoreActivities(activities).None? ==> ActivityPreview(activities) == activities
  {
  }

  /** `ageGroup.toLowerCase().split(" ")[0]`: the lower-cased text before the first space. */
  function AgeGroupKey(ageGroup: string): (r: string)
    ensures r <= Lower(ageGroup)
    ensures ' ' !in r
    ensures |r| == |ageGroup| || Lower(ageGroup)[|r|] == ' '
  {
    SplitFirst(Lower(ageGroup), ' ');
    Split(Lower(ageGroup), ' ')[0]
  }

  /** The age-group select: item values, and item texts split into first word and bracketed range. */
  const AgeGroupValues: seq<string> := ["infants", "toddlers", "preschool", "prek"]
  const AgeGroupWords: seq<string> := ["Infants", "Toddlers", "Preschool", "Pre-K"]
  const AgeGroupRanges: seq<string> := ["(0-1 year)", "(1-2 years)", "(3-4 years)", "(4-5 years)"]

  /** The text of item i, which is also the `ageGroup` of the classrooms in that group. */
  function AgeGroupLabel(i: nat): string
    requires i < 4
  {
    AgeGroupWords[i] + " " + AgeGroupRanges[i]
  }

  /** The first word of a label, lower-cased, is its key. */
  lemma {:induction false} KeyOfLabel(word: string, rest: string, key: string)
    requires ' ' !in word && Lower(word) == key
    ensures AgeGroupKey(word + " " + rest) == key
  {
    var s := word + " " + rest;
    assert Lower(s) == Lower(word) + " " + Lower(rest);
    LowerKeepsSpaces(word);
    SplitPrefix(Lower(word), ' ', Lower(rest));
  }

  /** Lower-casing neither adds nor removes spaces. */
  lemma LowerKeepsSpaces(s: string)
    requires ' ' !in s
    ensures ' ' !in Lower(s)
  {
  }

  /** As written: the keys of the three one-word age groups are their select values. */
  lemma AgeGroupKeyMatchesOneWordItems(i: nat)
    requires i < 3
    ensures AgeGroupKey(AgeGroupLabel(i)) == AgeGroupValues[i]
  {
    KeyOfLabel(AgeGroupWords[i], AgeGroupRanges[i], AgeGroupValues[i]);
  }

  /** As written: the Pre-K classroom's key is "pre-k", which no select item has ("prek"). */
  lemma PreKKeyMatchesNoItem()
    ensures AgeGroupKey(AgeGroupLabel(3)) == "pre-k"
    ensures AgeGroupKey(AgeGroupLabel(3)) !in AgeGroupValues
  {
    KeyOfLabel(AgeGroupWords[3], AgeGroupRanges[3], "pre-k");
    assert "pre-k"[3] != "prek"[3];
  }

  /** The string without its hyphens. */
  function DropHyphens(s: string): (r: string)
    ensures '-' !in r
    ensures forall c :: c in r <==> c in s && c != '-'
    ensures forall c :: multiset(r)[c] == if c == '-' then 0 else multiset(s)[c]
    ensures '-' !in s ==> r == s
    decreases |s|
  {
    if s == [] then []
    else
      assert s == [s[0]] + s[1..];
      if s[0] == '-' then DropHyphens(s[1..])
      else [s[0]] + DropHyphens(s[1..])
  }

  /** Dropping hyphens keeps the other characters in their order. */
  lemma {:induction false} DropHyphensKeepsOrder(s: string)
    ensures IsSubsequence(DropHyphens(s), s)
    decreases |s|
  {
    if s != [] {
      DropHyphensKeepsOrder(s[1..]);
      if s[0] != '-' {
        assert ([s[0]] + DropHyphens(s[1..]))[1..] == DropHyphens(s[1..]);
      }
    }
  }

  /** Corrected key: the as-written key with its hyphens dropped, so "Pre-K" selects "prek". */
  function AgeGroupSelectKey(ageGroup: string): (r: string)
    ensures '-' !in r && ' ' !in r
    ensures '-' !in AgeGroupKey(ageGroup) ==> r == AgeGroupKey(ageGroup)
  {
    DropHyphens(AgeGroupKey(ageGroup))
  }

  /** Corrected: every age-group label starts its select on its own item. */
  lemma AgeGroupSelectKeyMatchesItems(i: nat)
    requires i < 4
    ensures AgeGroupSelectKey(AgeGroupLabel(i)) == AgeGroupValues[i]
  {
    if i < 3 {
      SelectOneWord(i);
    } else {
      SelectPreK();
    }
  }

  lemma SelectOneWord(i: nat)
    requires i < 3
    ensures AgeGroupSelectKey(AgeGroupLabel(i)) == AgeGroupValues[i]
  {
    AgeGroupKeyMatchesOneWordItems(i);
    assert '-' !in AgeGroupValues[i];
  }

  lemma SelectPreK()
    ensures AgeGroupSelectKey(AgeGroupLabel(3)) == "prek"
  {
    var word, rest := AgeGroupWords[3], AgeGroupRanges[3];
    assert word == "Pre-K";
    SelectKeyOfLabel(word, rest);
    PreKWithoutHyphen(word);
  }

  /** The corrected key of a label is its first word, lower-cased, without hyphens. */
  lemma SelectKeyOfLabel(word: string, rest: string)
    requires ' ' !in word
    ensures AgeGroupSelectKey(word + " " + rest) == DropHyphens(Lower(word))
  {
    KeyOfLabel(word, rest, Lower(word));
  }

  lemma PreKWithoutHyphen(word: string)
    requires word == "Pre-K"
    ensures DropHyphens(Lower(word)) == "prek"
  {
    var key := Lower(word);
    assert key == "pre-k";
    assert key[1..] == "re-k" && key[2..] == "e-k" && key[3..] == "-k" && key[4..] == "k";
    assert DropHyphens(key[3..]) == DropHyphens(key[4..]) == "k";
    assert DropHyphens(key[2..]) == "ek";
    assert DropHyphens(key[1..]) == "rek";
  }
}
