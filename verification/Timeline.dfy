/**
 * The change timeline: tool calls keyed by session and call id, kept in the
 * order first seen, with a hash index beside the list.
 */
module TimelineModel {
  import opened Wrappers

  type Path = string
  type Key = (string, string)

  datatype AgentStatus = Pending | InProgress | Completed | Failed | Canceled
  datatype WriteStatus = NoWrite | Written | WriteFailed
  datatype ItemKind = Read | Edit | Delete | Move | Search | Execute | Think | Fetch | Question | Plan | Other

  datatype FileDiff = FileDiff(path: Path, oldText: Option<string>, newText: string)

  datatype Item = Item(key: Key, turn: nat, seqNo: nat, kind: ItemKind, title: string, locations: seq<Path>,
                       projectLabel: Option<string>, cwd: Option<string>, diffs: seq<FileDiff>,
                       contentText: Option<string>, rawInput: Option<string>,
                       agentStatus: AgentStatus, writeStatus: WriteStatus, revision: nat)

  /** A blank item, first seen as the seqNo-th. */
  function Shell(key: Key, seqNo: nat): Item {
    Item(key, 0, seqNo, Other, "", [], None, None, [], None, None, Pending, NoWrite, 0)
  }

  /** Linear search: the position of the item with this key. */
  function Find(items: seq<Item>, key: Key): (r: Option<nat>)
    ensures r.Some? ==> r.value < |items| && items[r.value].key == key && forall i :: 0 <= i < r.value ==> items[i].key != key
    ensures r.None? ==> forall i :: 0 <= i < |items| ==> items[i].key != key
  {
    if items == [] then None
    else if items[0].key == key then Some(0)
    else
      var r := Find(items[1..], key);
      if r.None? then None else Some(r.value + 1)
  }

  /** The items after a sighting of the key: a shell is added only for a new one. */
  function Sighted(items: seq<Item>, key: Key): seq<Item> {
    if Find(items, key).Some? then items else items + [Shell(key, |items|)]
  }

  /** Where a sighted key is. */
  function Position(items: seq<Item>, key: Key): (i: nat)
    ensures i < |Sighted(items, key)| && Sighted(items, key)[i].key == key
  {
    if Find(items, key).Some? then Find(items, key).value else |items|
  }

  /** Items are numbered by position, and no key has two. */
  ghost predicate WellKeyed(items: seq<Item>) {
    && (forall i :: 0 <= i < |items| ==> items[i].seqNo == i)
    && forall i, j :: 0 <= i < j < |items| ==> items[i].key != items[j].key
  }

  function IsOpen(status: AgentStatus): bool {
    status == Pending || status == InProgress
  }

  function CanceledItem(item: Item): Item {
    if IsOpen(item.agentStatus) then item.(agentStatus := Canceled, revision := item.revision + 1) else item
  }

  function CanceledAll(items: seq<Item>): (r: seq<Item>)
    ensures |r| == |items| && forall i :: 0 <= i < |items| ==> r[i] == CanceledItem(items[i])
  {
    seq(|items|, i requires 0 <= i < |items| => CanceledItem(items[i]))
  }

  lemma CancelKeepsKeys(items: seq<Item>)
    requires WellKeyed(items)
    ensures WellKeyed(CanceledAll(items)) && forall i :: 0 <= i < |items| ==> CanceledAll(items)[i].key == items[i].key
  {}

  predicate Touches(item: Item, path: Path) {
    path in item.locations || exists d :: d in item.diffs && d.path == path
  }

  class Timeline {
    var items: seq<Item>
    var index: map<Key, nat>
    var nextSeq: nat
    const marker: Path -> Option<string>

    /** The index is the linear search: same keys, same positions. */
    ghost predicate Valid()
      reads this
    {
      && nextSeq == |items| && WellKeyed(items)
      && (forall key :: key in index ==> index[key] < |items| && items[index[key]].key == key)
      && (forall i :: 0 <= i < |items| ==> items[i].key in index)
    }

    lemma IndexIsLinearSearch(key: Key)
      requires Valid()
      ensures Find(items, key) == if key in index then Some(index[key]) else None
    {
      if key in index {
        assert items[index[key]].key == key;
      }
    }

    constructor (marker: Path -> Option<string>)
      ensures Valid() && items == [] && this.marker == marker
    {
      items, index, nextSeq := [], map[], 0;
      this.marker := marker;
    }

    /** The position of the key's item, made on first sight. */
    method Entry(key: Key) returns (at: nat, isNew: bool)
      requires Valid()
      modifies this
      ensures Valid() && items == Sighted(old(items), key)
      ensures at == Position(old(items), key) && isNew == Find(old(items), key).None?
    {
      IndexIsLinearSearch(key);
      if key in index {
        return index[key], false;
      }
      var seqNo := TakeSeq();
      at := |items|;
      items := items + [Shell(key, seqNo)];
      index := index[key := at];
      isNew := true;
    }

    method TakeSeq() returns (seqNo: nat)
      modifies this`nextSeq
      ensures seqNo == old(nextSeq) && nextSeq == seqNo + 1
    {
      seqNo := nextSeq;
      nextSeq := nextSeq + 1;
    }

    /** Write back an item changed in place; its identity stays. */
    method Update(at: nat, item: Item)
      requires Valid() && at < |items| && item.key == items[at].key && item.seqNo == at
      modifies this`items
      ensures Valid() && items == old(items)[at := item]
    {
      items := items[at := item];
    }

    function LabelFor(locations: seq<Path>): Option<string> {
      if locations == [] then None else marker(locations[0])
    }

    /** Close every item still running. */
    method CancelOpen()
      requires Valid()
      modifies this`items
      ensures Valid() && items == CanceledAll(old(items))
    {
      ghost var before := items;
      CancelKeepsKeys(before);
      hide Valid, WellKeyed;
      for i := 0 to |items|
        invariant |items| == |before|
        invariant forall j :: 0 <= j < i ==> items[j] == CanceledItem(before[j])
        invariant forall j :: i <= j < |items| ==> items[j] == before[j]
      {
        var item := items[i];
        if item.agentStatus == Pending || item.agentStatus == InProgress {
          items := items[i := item.(agentStatus := Canceled, revision := item.revision + 1)];
        }
      }
      assert items == CanceledAll(before);
      assert Valid() by {
        StillValid(before);
      }
    }

    /** The index survives a change that leaves every key where it was. */
    lemma StillValid(before: seq<Item>)
      requires |items| == |before| == nextSeq && WellKeyed(items) && forall i :: 0 <= i < |items| ==> items[i].key == before[i].key
      requires forall key :: key in index ==> index[key] < |before| && before[index[key]].key == key
      requires forall i :: 0 <= i < |before| ==> before[i].key in index
      ensures Valid()
    {}

    /** Record our own write for a call, if the call is known. */
    method SetWriteStatus(key: Key, status: WriteStatus) returns (found: bool)
      requires Valid()
      modifies this`items
      ensures Valid() && found == Find(old(items), key).Some?
      ensures items == if found then var i := Find(old(items), key).value;
                                     old(items)[i := old(items)[i].(writeStatus := status, revision := old(items)[i].revision + 1)]
                       else old(items)
    {
      IndexIsLinearSearch(key);
      if key in index {
        var item := items[index[key]];
        items := items[index[key] := item.(writeStatus := status, revision := item.revision + 1)];
        return true;
      }
      found := false;
    }

    /** Record our own write on the latest item whose locations or diffs name the path. */
    method SetWriteStatusByPath(path: Path, status: WriteStatus) returns (found: Option<nat>)
      requires Valid()
      modifies this`items
      ensures Valid()
      ensures found.None? ==> items == old(items)
      ensures found.Some? ==> var i := found.value;
                && i < |old(items)| && items == old(items)[i := old(items)[i].(writeStatus := status, revision := old(items)[i].revision + 1)]
                && (path in old(items)[i].locations || exists d :: d in old(items)[i].diffs && d.path == path)
      ensures forall j :: (if found.None? then 0 else found.value + 1) <= j < |old(items)| ==>
                path !in old(items)[j].locations && forall d :: d in old(items)[j].diffs ==> d.path != path
    {
      for i := |items| downto 0
        invariant items == old(items)
        invariant forall j :: i <= j < |items| ==> !Touches(items[j], path)
      {
        if Touches(items[i], path) {
          var item := items[i];
          items := items[i := item.(writeStatus := status, revision := item.revision + 1)];
          return Some(i);
        }
      }
      found := None;
    }
  }

  /** The item of a key, once it has been seen. */
  function ItemOf(items: seq<Item>, key: Key): Option<Item> {
    if Find(items, key).Some? then Some(items[Find(items, key).value]) else None
  }
}
