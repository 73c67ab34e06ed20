/**
 * The teacher directory (src/pages/teachers.tsx): the visible rows for a
 * search query and a status select, the status badge colour and label, and
 * the avatar initials.
 */
module Teachers {
  import opened Text
  import opened Lists
  import opened Palette

  datatype Teacher = Teacher(
    id: string,
    name: string,
    email: string,
    phone: string,
    position: string,
    avatar: string,
    status: string,
    classrooms: seq<string>,
    qualifications: seq<string>,
    hireDate: string)

  /** The name, e-mail or position, lower-cased, contains the lower-cased query. */
  predicate MatchesSearch(t: Teacher, searchQuery: string) {
    || Contains(Lower(t.name), Lower(searchQuery))
    || Contains(Lower(t.email), Lower(searchQuery))
    || Contains(Lower(t.position), Lower(searchQuery))
  }

  /** The selected status is "all" or equals the teacher's status exactly. */
  predicate MatchesStatus(t: Teacher, selectedStatus: string) {
    selectedStatus == "all" || t.status == selectedStatus
  }

  /** `filteredTeachers` */
  function FilteredTeachers(teachers: seq<Teacher>, searchQuery: string, selectedStatus: string): (r: seq<Teacher>)
    ensures IsSubsequence(r, teachers)
    ensures forall t :: t in r <==> t in teachers && MatchesSearch(t, searchQuery) && MatchesStatus(t, selectedStatus)
    ensures forall t :: t in teachers && MatchesSearch(t, searchQuery) && MatchesStatus(t, selectedStatus) ==>
      multiset(r)[t] == multiset(teachers)[t]
  {
    Filter(teachers, t => MatchesSearch(t, searchQuery) && MatchesStatus(t, selectedStatus))
  }

  lemma FilteredTeachersIdempotent(teachers: seq<Teacher>, searchQuery: string, selectedStatus: string)
    ensures FilteredTeachers(FilteredTeachers(teachers, searchQuery, selectedStatus), searchQuery, selectedStatus)
         == FilteredTeachers(teachers, searchQuery, selectedStatus)
  {
    var p := t => MatchesSearch(t, searchQuery) && MatchesStatus(t, selectedStatus);
    FilterFilter(teachers, p, p, p);
  }

  /** A specific status keeps the same rows as "all" narrowed to that status, in the same order. */
  lemma StatusNarrowsAll(teachers: seq<Teacher>, searchQuery: string, selectedStatus: string)
    ensures FilteredTeachers(teachers, searchQuery, selectedStatus)
         == Filter(FilteredTeachers(teachers, searchQuery, "all"), t => MatchesStatus(t, selectedStatus))
  {
    FilterFilter(teachers,
      t => MatchesSearch(t, searchQuery) && MatchesStatus(t, "all"),
      t => MatchesStatus(t, selectedStatus),
      t => MatchesSearch(t, searchQuery) && MatchesStatus(t, selectedStatus));
  }

  /** `getStatusBadgeColor` */
  function StatusBadgeColor(status: string): (r: Tone)
    ensures status == "active" ==> r == Green
    ensures status == "on leave" ==> r == Amber
    ensures status == "training" ==> r == Blue
    ensures r == Gray <==> status !in {"active", "on leave", "training"}
  {
    match status
    case "active" => Green
    case "on leave" => Amber
    case "training" => Blue
    case _ => Gray
  }

  /** Different known statuses never share a colour. */
  lemma StatusBadgeColorInjective(s1: string, s2: string)
    requires s1 in {"active", "on leave", "training"} && s2 in {"active", "on leave", "training"}
    ensures StatusBadgeColor(s1) == StatusBadgeColor(s2) <==> s1 == s2
  {
  }

  /** The badge text is the status with its first letter upper-cased: "on leave" reads "On leave". */
  lemma StatusLabelExample()
    ensures Capitalize("on leave") == "On leave"
  {
  }

  /** The avatar fallback of a teacher with a two-word name is the two word-initial letters. */
  lemma InitialsExample()
    ensures Initials("Emily Thompson") == "ET"
  {
    assert "Emily Thompson" == "Emily" + " " + "Thompson";
    InitialsOfTwoWords("Emily", "Thompson");
  }
}
