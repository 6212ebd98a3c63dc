/** The Splitwise member picker: clicking a member toggles its id in the
    selection, and a cleared group empties the member list. */
module MemberSelection {
  import opened Wrappers

  /** `ids` without the occurrences of `id`, order kept
      (`ids.filter(x => x !== id)`). */
  function Without(ids: seq<int>, id: int): (r: seq<int>)
    ensures id !in r
    ensures forall x :: x in r <==> x in ids && x != id
    ensures |r| <= |ids|
  {
    if ids == [] then []
    else Without(ids[..|ids| - 1], id) + (if ids[|ids| - 1] == id then [] else [ids[|ids| - 1]])
  }

  /** Removing an id that is not there changes nothing. */
  lemma {:induction false} WithoutAbsent(ids: seq<int>, id: int)
    requires id !in ids
    ensures Without(ids, id) == ids
  {
    if ids != [] {
      WithoutAbsent(ids[..|ids| - 1], id);
      assert ids == ids[..|ids| - 1] + [ids[|ids| - 1]];
    }
  }

  /** Filtering distributes over concatenation. */
  lemma {:induction false} WithoutAppend(a: seq<int>, b: seq<int>, id: int)
    ensures Without(a + b, id) == Without(a, id) + Without(b, id)
  {
    if b != [] {
      WithoutAppend(a, b[..|b| - 1], id);
      assert (a + b)[..|a + b| - 1] == a + b[..|b| - 1];
    } else {
      assert a + b == a;
    }
  }

  /** `toggleMember(id)`: the selection handed to the parent. */
  function Toggle(selected: seq<int>, id: int): (r: seq<int>)
    ensures id in r <==> id !in selected
    ensures id !in selected ==> r == selected + [id]
  {
    if id in selected then Without(selected, id) else selected + [id]
  }

  /** Every other id keeps its occurrences and their relative order. */
  lemma ToggleKeepsOthers(selected: seq<int>, id: int)
    ensures Without(Toggle(selected, id), id) == Without(selected, id)
  {
    if id !in selected {
      WithoutAppend(selected, [id], id);
      assert Without([id], id) == [] by {
        assert [id][..0] == [];
      }
      assert Without(selected, id) + [] == Without(selected, id);
    } else {
      WithoutAbsent(Without(selected, id), id);
    }
  }

  /** Toggling an id that was not selected twice gives the selection back. */
  lemma ToggleTwice(selected: seq<int>, id: int)
    requires id !in selected
    ensures Toggle(Toggle(selected, id), id) == selected
  {
    WithoutAppend(selected, [id], id);
    WithoutAbsent(selected, id);
    assert Without([id], id) == [] by {
      assert [id][..0] == [];
    }
  }

  /** A Splitwise group member as the picker lists it. */
  datatype Member = Member(id: int, firstName: string, lastName: string)

  /** The member list after the group changes: a group id that is `null`
      or 0 (both falsy) clears it; otherwise a successful fetch replaces it
      with the group's users and a failed one (`None`) leaves it as it was. */
  function MembersAfterGroupChange(groupId: Option<int>, current: seq<Member>,
                                   fetched: Option<seq<Member>>): (r: seq<Member>)
    ensures groupId.None? || groupId.value == 0 ==> r == []
    ensures groupId.Some? && groupId.value != 0 && fetched.Some? ==> r == fetched.value
    ensures groupId.Some? && groupId.value != 0 && fetched.None? ==> r == current
  {
    if groupId.None? || groupId.value == 0 then []
    else match fetched
      case Some(users) => users
      case None => current
  }
}
