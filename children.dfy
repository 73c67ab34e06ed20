/**
 * The children roster (src/pages/children.tsx): the visible cards for a search
 * query and an age tab, and what a card and the profile dialog derive from a
 * child record (attendance colour, allergy count, guardian role, relationship
 * and e-mail address).
 */
module Children {
  import opened Text
  import opened Lists
  import opened Palette

  datatype Child = Child(
    id: string,
    name: string,
    age: int,
    gender: string,
    classroom: string,
    guardians: seq<string>,
    allergies: seq<string>,
    attendanceRate: real,
    imageUrl: string)

  /** The name or the classroom, lower-cased, contains the lower-cased query. */
  predicate MatchesSearch(c: Child, searchQuery: string) {
    Contains(Lower(c.name), Lower(searchQuery)) || Contains(Lower(c.classroom), Lower(searchQuery))
  }

  /** The body of the filter callback, early returns per tab. */
  predicate Keeps(c: Child, searchQuery: string, selectedTab: string) {
    var matchesSearch := MatchesSearch(c, searchQuery);
    if selectedTab == "all" then matchesSearch
    else if selectedTab == "toddlers" then matchesSearch && c.age <= 3
    else if selectedTab == "preschool" then matchesSearch && c.age > 3
    else matchesSearch
  }

  /** `filteredChildren` */
  function FilteredChildren(children: seq<Child>, searchQuery: string, selectedTab: string): (r: seq<Child>)
    ensures IsSubsequence(r, children)
    ensures forall c :: c in r <==> c in children && Keeps(c, searchQuery, selectedTab)
    ensures forall c :: c in children && Keeps(c, searchQuery, selectedTab) ==>
      multiset(r)[c] == multiset(children)[c]
  {
    Filter(children, c => Keeps(c, searchQuery, selectedTab))
  }

  /** The toddler tab is the "all" tab narrowed to age three and under, in the same order. */
  lemma ToddlersTab(children: seq<Child>, searchQuery: string)
    ensures FilteredChildren(children, searchQuery, "toddlers")
         == Filter(FilteredChildren(children, searchQuery, "all"), (c: Child) => c.age <= 3)
  {
    FilterFilter(children, c => Keeps(c, searchQuery, "all"), (c: Child) => c.age <= 3, c => Keeps(c, searchQuery, "toddlers"));
  }

  /** The preschool tab is the "all" tab narrowed to ages above three, in the same order. */
  lemma PreschoolTab(children: seq<Child>, searchQuery: string)
    ensures FilteredChildren(children, searchQuery, "preschool")
         == Filter(FilteredChildren(children, searchQuery, "all"), (c: Child) => c.age > 3)
  {
    FilterFilter(children, c => Keeps(c, searchQuery, "all"), (c: Child) => c.age > 3, c => Keeps(c, searchQuery, "preschool"));
  }

  /** The two age tabs share no child and together hold exactly the children of the "all" tab. */
  lemma AgeTabsPartitionAll(children: seq<Child>, searchQuery: string)
    ensures multiset(FilteredChildren(children, searchQuery, "toddlers"))
          + multiset(FilteredChildren(children, searchQuery, "preschool"))
         == multiset(FilteredChildren(children, searchQuery, "all"))
    ensures multiset(FilteredChildren(children, searchQuery, "toddlers"))
         !! multiset(FilteredChildren(children, searchQuery, "preschool"))
  {
    FilterPartition(children,
      c => Keeps(c, searchQuery, "all"),
      c => Keeps(c, searchQuery, "toddlers"),
      c => Keeps(c, searchQuery, "preschool"));
  }

  /** A tab value other than the three known ones shows the same cards as "all". */
  lemma UnknownTabIsAll(children: seq<Child>, searchQuery: string, selectedTab: string)
    requires selectedTab !in {"all", "toddlers", "preschool"}
    ensures FilteredChildren(children, searchQuery, selectedTab) == FilteredChildren(children, searchQuery, "all")
  {
    FilterCongruent(children, c => Keeps(c, searchQuery, selectedTab), c => Keeps(c, searchQuery, "all"));
  }

  /** The colour of the attendance percentage: green from 90, amber from 80, red below. */
  function AttendanceTone(attendanceRate: real): (r: Tone)
    ensures r == Green <==> attendanceRate >= 90.0
    ensures r == Amber <==> 80.0 <= attendanceRate < 90.0
    ensures r == Red <==> attendanceRate < 80.0
  {
    if attendanceRate >= 90.0 then Green
    else if attendanceRate >= 80.0 then Amber
    else Red
  }

  /** Rank of an attendance tone, worst first. */
  function ToneRank(t: Tone): nat {
    match t
    case Red => 0
    case Amber => 1
    case _ => 2
  }

  /** A higher attendance rate never gets a worse colour. */
  lemma AttendanceToneMonotonic(low: real, high: real)
    requires low <= high
    ensures ToneRank(AttendanceTone(low)) <= ToneRank(AttendanceTone(high))
  {
  }

  /** What the card shows under "Allergies": a count, or the word "None". */
  datatype AllergyText = Count(n: nat) | NoneText

  /** `child.allergies.length || "None"` */
  function AllergyCount(allergies: seq<string>): (r: AllergyText)
    ensures r.NoneText? <==> allergies == []
    ensures r.Count? ==> r.n == |allergies| && r.n > 0
  {
    if |allergies| == 0 then NoneText else Count(|allergies|)
  }

  /** The role line under a guardian's name. */
  function GuardianRole(index: nat): (r: string)
    ensures index == 0 ==> r == "Primary Guardian"
    ensures index != 0 ==> r == "Secondary Guardian"
  {
    if index == 0 then "Primary Guardian" else "Secondary Guardian"
  }

  /** Exactly one guardian of a non-empty list is labelled primary: the first. */
  lemma OnePrimaryGuardian(guardians: seq<string>)
    ensures |set i | 0 <= i < |guardians| && GuardianRole(i) == "Primary Guardian"| == if guardians == [] then 0 else 1
  {
    var primaries := set i | 0 <= i < |guardians| && GuardianRole(i) == "Primary Guardian";
    if guardians == [] {
      assert primaries == {};
    } else {
      assert primaries == {0};
    }
  }

  /** The relationship shown for a guardian: by position, alternating. */
  function Relationship(index: nat): (r: string)
    ensures index % 2 == 0 ==> r == "Mother"
    ensures index % 2 == 1 ==> r == "Father"
  {
    if index % 2 == 0 then "Mother" else "Father"
  }

  /** Neighbouring guardians always get different relationships; every second one the same. */
  lemma RelationshipAlternates(index: nat)
    ensures Relationship(index) != Relationship(index + 1)
    ensures Relationship(index) == Relationship(index + 2)
  {
  }

  /** The guardian's e-mail: lower-cased name, first space replaced by a dot, then "@example.com". */
  function GuardianEmail(guardian: string): (r: string)
    ensures |r| == |guardian| + |"@example.com"|
    ensures r[|guardian|..] == "@example.com"
    ensures forall i :: 0 <= i < |guardian| ==>
      r[i] == if guardian[i] == ' ' && ' ' !in guardian[..i] then '.' else LowerChar(guardian[i])
  {
    var lowered := Lower(guardian);
    assert forall i :: 0 <= i < |guardian| ==> (' ' in lowered[..i] <==> ' ' in guardian[..i]) by {
      forall i | 0 <= i < |guardian|
        ensures ' ' in lowered[..i] <==> ' ' in guardian[..i]
      {
        assert forall k :: 0 <= k < i ==> (lowered[..i][k] == ' ' <==> guardian[..i][k] == ' ');
      }
    }
    ReplaceFirst(lowered, ' ', '.') + "@example.com"
  }

  /**
   * A guardian named by a first word and the rest of the name: the address is
   * the lower-cased first word, a dot, the lower-cased rest, then the domain.
   */
  lemma GuardianEmailOfName(first: string, last: string)
    requires ' ' !in first
    ensures GuardianEmail(first + " " + last) == Lower(first) + "." + Lower(last) + "@example.com"
  {
    var guardian := first + " " + last;
    var r, expected := GuardianEmail(guardian), Lower(first) + "." + Lower(last) + "@example.com";
    assert guardian[|first|] == ' ';
    forall i | 0 <= i < |guardian|
      ensures r[i] == expected[i]
    {
      if i < |first| {
        assert guardian[i] == first[i];
      } else if i > |first| {
        assert guardian[..i][|first|] == ' ';
        assert guardian[i] == last[i - |first| - 1];
      } else {
        assert guardian[..i] == first;
      }
    }
    assert r[|guardian|..] == expected[|guardian|..];
  }
}
