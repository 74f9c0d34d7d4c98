/** `IGroup`, the label shown by the group picker and the option list of the
    picker modal. */
module Groups {
  import opened Wrappers
  import opened Text

  datatype Group = Group(id: int, group: string)

  /** `group.id.toString()`: the key the screen selects a group by. */
  function IdString(g: Group): string {
    IntToString(g.id)
  }

  predicate DistinctIds(groups: seq<Group>) {
    forall j, k :: 0 <= j < k < |groups| ==> groups[j].id != groups[k].id
  }

  /** The position of the first group whose key is `selected`, or `|groups|`
      when there is none. */
  function FindIndex(groups: seq<Group>, selected: string): (k: nat)
    ensures k <= |groups|
    ensures forall j :: 0 <= j < k ==> IdString(groups[j]) != selected
    ensures k < |groups| ==> IdString(groups[k]) == selected
    decreases |groups|
  {
    if groups == [] || IdString(groups[0]) == selected then 0
    else
      var k := FindIndex(groups[1..], selected);
      assert forall j :: 0 < j <= k ==> groups[j] == groups[1..][j - 1];
      1 + k
  }

  /** `groups.find(grp => grp.id.toString() === selected)`. */
  function Find(groups: seq<Group>, selected: string): (r: Option<Group>)
    ensures r.None? <==> forall i :: 0 <= i < |groups| ==> IdString(groups[i]) != selected
    ensures r.Some? ==> exists i :: (0 <= i < |groups| && groups[i] == r.value &&
      IdString(groups[i]) == selected &&
      forall j :: 0 <= j < i ==> IdString(groups[j]) != selected)
  {
    var k := FindIndex(groups, selected);
    if k < |groups| then Some(groups[k]) else None
  }

  /** The picker's label: `find(...)?.group`. */
  function Label(groups: seq<Group>, selected: string): (r: Option<string>)
    ensures r.None? <==> forall i :: 0 <= i < |groups| ==> IdString(groups[i]) != selected
    ensures r.Some? ==> exists i :: (0 <= i < |groups| && IdString(groups[i]) == selected &&
      r.value == groups[i].group &&
      forall j :: 0 <= j < i ==> IdString(groups[j]) != selected)
  {
    match Find(groups, selected)
    case None => None
    case Some(g) => Some(g.group)
  }

  /** One entry of the picker modal's list. */
  datatype PickerItem = PickerItem(value: string, option: string)

  /** `groups.map(group => ({ value: group.id.toString(), option: group.group }))`. */
  function PickerData(groups: seq<Group>): (r: seq<PickerItem>)
    ensures |r| == |groups|
    ensures forall i :: 0 <= i < |r| ==>
      r[i].option == groups[i].group && r[i].value == IdString(groups[i])
  {
    seq(|groups|, i requires 0 <= i < |groups| => PickerItem(IdString(groups[i]), groups[i].group))
  }

  /** Choosing an entry of the modal makes the picker show that entry's name,
      provided no two groups share an identifier. */
  lemma PickedItemIsLabelled(groups: seq<Group>, i: nat)
    requires DistinctIds(groups) && i < |groups|
    ensures Label(groups, PickerData(groups)[i].value) == Some(groups[i].group)
  {
    var selected := PickerData(groups)[i].value;
    var k := FindIndex(groups, selected);
    if k != i {
      assert k < i;
      IntToStringInjective(groups[k].id, groups[i].id);
    }
  }

  /** The first group, selected by its key, labels the picker with its name. */
  lemma FirstGroupIsLabelled(groups: seq<Group>)
    requires |groups| > 0
    ensures Label(groups, IdString(groups[0])) == Some(groups[0].group)
  {
  }
}
