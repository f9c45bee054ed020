/** The collaboration spaces view: the search over spaces, the member strip and the create dialog. */
module CollabSection {

  import opened Seqs
  import opened Discovery

  datatype Member = Member(name: string, avatar: string)

  datatype Space = Space(name: string, description: string, languages: seq<string>, members: seq<Member>)

  /** `filteredSpaces`: the same search as the project cards. */
  function FilteredSpaces(spaces: seq<Space>, query: string): seq<Space> {
    Filter(spaces, (s: Space) => SearchMatch(s.name, s.description, s.languages, query))
  }

  /** A space is listed exactly when it matches, in list order; an empty query keeps all of them. */
  lemma FilteredSpacesFacts(spaces: seq<Space>, query: string)
    ensures var r := FilteredSpaces(spaces, query);
      && (forall s :: s in r <==> s in spaces && SearchMatch(s.name, s.description, s.languages, query))
      && IsSubsequence(r, spaces)
      && (query == "" ==> r == spaces)
  {
    if query == "" {
      forall s | s in spaces ensures SearchMatch(s.name, s.description, s.languages, query) {
        EmptySearchMatches(s.name, s.description, s.languages);
      }
      FilterAll(spaces, (s: Space) => SearchMatch(s.name, s.description, s.languages, query));
    }
  }

  /** The member strip: at most three avatars, the first ones, beside the full member count. */
  datatype MemberStrip = MemberStrip(avatars: seq<Member>, count: nat)

  function Strip(s: Space): (r: MemberStrip)
    ensures |r.avatars| == if |s.members| < 3 then |s.members| else 3
    ensures r.avatars == s.members[..|r.avatars|]
    ensures r.count == |s.members|
  {
    MemberStrip(Take(s.members, 3), |s.members|)
  }

  class CollabSection {
    const spaces: seq<Space>
    var query: string
    var dialogOpen: bool

    constructor (spaces: seq<Space>)
      ensures this.spaces == spaces && query == "" && !dialogOpen
    {
      this.spaces := spaces;
      query, dialogOpen := "", false;
    }

    method Search(q: string)
      modifies this
      ensures query == q && dialogOpen == old(dialogOpen)
    {
      query := q;
    }

    method OpenDialog()
      modifies this
      ensures dialogOpen && query == old(query)
    {
      dialogOpen := true;
    }

    /** The dialog's Create button only closes the dialog: no space is added. */
    method Create()
      modifies this
      ensures !dialogOpen && query == old(query)
      ensures FilteredSpaces(spaces, query) == old(FilteredSpaces(spaces, query))
    {
      dialogOpen := false;
    }
  }
}
