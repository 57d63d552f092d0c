/**
 * The listings of the GPCA awards cog (src/cogs/gpca.py): `query_full_tree`
 * folds the rows of the group/award/nominee join into nested dicts keyed by
 * id and renders one message per group; `Award.list_all_entries` folds the
 * group/award join into one message per group listing its awards. A Python
 * dict keeps its keys in first-insertion order; it is modelled as a sequence
 * of nodes whose ids are distinct.
 */
module GpcaListing {
  import opened Wrappers
  import opened Strings

  /** `show_id_numbers`. */
  const ShowIdNumbers: bool := true

  // ---------------------------------------------------------------------------
  // Ids in first-occurrence order
  // ---------------------------------------------------------------------------

  predicate Distinct(ids: seq<int>)
  {
    forall i, j :: 0 <= i < j < |ids| ==> ids[i] != ids[j]
  }

  /** The position of `x` in `ids`: its first occurrence. */
  function IndexOf(ids: seq<int>, x: int): (r: Option<nat>)
    ensures r.Some? <==> x in ids
    ensures r.Some? ==> r.value < |ids| && ids[r.value] == x && x !in ids[..r.value]
  {
    if ids == [] then None
    else if ids[0] == x then Some(0)
    else
      match IndexOf(ids[1..], x)
      case None => None
      case Some(k) =>
        assert ids[..k + 1] == [ids[0]] + ids[1..][..k];
        Some(k + 1)
  }

  /** Looking up the key just appended finds it at the end; other keys are where they were. */
  lemma {:induction false} IndexOfSnoc(ids: seq<int>, x: int, y: int)
    ensures IndexOf(ids + [x], y) == if y in ids then IndexOf(ids, y) else if y == x then Some(|ids|) else None
  {
    if ids != [] {
      assert (ids + [x])[1..] == ids[1..] + [x];
      assert ids == [ids[0]] + ids[1..];
      IndexOfSnoc(ids[1..], x, y);
    }
  }

  /** The keys of an insertion-ordered dict after inserting `s` in turn: each once, in first-occurrence order. */
  function Dedup(s: seq<int>): (r: seq<int>)
    ensures Distinct(r)
    ensures forall x :: x in r <==> x in s
    ensures |r| <= |s|
  {
    if s == [] then []
    else
      var d := Dedup(s[..|s| - 1]);
      var last := s[|s| - 1];
      assert s == s[..|s| - 1] + [last];
      if last in d then d else d + [last]
  }

  // ---------------------------------------------------------------------------
  // query_full_tree: the nested dicts
  // ---------------------------------------------------------------------------

  /**
   * One row of the full-tree query: g.group_id, g.name, g.description,
   * g.image_link, a.award_id, a.name, a.description, n.nominee_id, n.name,
   * n.description, n.link. The LEFT JOINs leave the award and nominee columns
   * NULL for a group without awards or an award without nominees.
   */
  datatype TreeRow = TreeRow(
    groupId: int, groupName: Option<string>, groupDescription: Option<string>, groupImage: Option<string>,
    awardId: Option<int>, awardName: Option<string>, awardDescription: Option<string>,
    nomineeId: Option<int>, nomineeName: Option<string>, nomineeDescription: Option<string>, nomineeLink: Option<string>)

  datatype NomineeNode = NomineeNode(id: int, name: Option<string>, description: Option<string>, link: Option<string>)

  datatype AwardNode = AwardNode(id: int, name: Option<string>, description: Option<string>, nominees: seq<NomineeNode>)

  datatype GroupNode = GroupNode(
    id: int, name: Option<string>, description: Option<string>, imageLink: Option<string>, awards: seq<AwardNode>)

  /** The key of each node, in order: the `keys()` of a dict kept as a sequence of nodes. */
  function Keys<T>(nodes: seq<T>, key: T -> int): (r: seq<int>)
    ensures |r| == |nodes| && forall k :: 0 <= k < |nodes| ==> r[k] == key(nodes[k])
  {
    seq(|nodes|, k requires 0 <= k < |nodes| => key(nodes[k]))
  }

  function GroupIds(tree: seq<GroupNode>): seq<int>
  {
    Keys(tree, (g: GroupNode) => g.id)
  }

  function AwardIds(awards: seq<AwardNode>): seq<int>
  {
    Keys(awards, (a: AwardNode) => a.id)
  }

  function NomineeIds(nominees: seq<NomineeNode>): seq<int>
  {
    Keys(nominees, (n: NomineeNode) => n.id)
  }

  /** `nominees[nid] = {...}`: a new id is appended; an existing one keeps its place and takes the new values. */
  function PutNominee(nominees: seq<NomineeNode>, n: NomineeNode): (r: seq<NomineeNode>)
    ensures NomineeIds(r) == if n.id in NomineeIds(nominees) then NomineeIds(nominees) else NomineeIds(nominees) + [n.id]
    ensures n in r
  {
    match IndexOf(NomineeIds(nominees), n.id)
    case Some(k) => nominees[k := n]
    case None => nominees + [n]
  }

  /** `if aid not in awards.keys(): awards[aid] = {...}`: the row's award, created when missing. */
  function WithAward(awards: seq<AwardNode>, row: TreeRow): (r: seq<AwardNode>)
    requires row.awardId.Some?
    ensures AwardIds(r) == if row.awardId.value in AwardIds(awards) then AwardIds(awards) else AwardIds(awards) + [row.awardId.value]
    ensures |awards| <= |r| && forall k :: 0 <= k < |awards| ==> r[k] == awards[k]
    ensures |r| > |awards| ==> |r| == |awards| + 1 && r[|awards|].nominees == []
  {
    var aid := row.awardId.value;
    if aid in AwardIds(awards) then awards
    else
      var r := awards + [AwardNode(aid, row.awardName, row.awardDescription, [])];
      assert AwardIds(r) == AwardIds(awards) + [aid];
      r
  }

  /** The award part of one row, under its group: the award is added once, then the nominee is put. */
  function AddAward(awards: seq<AwardNode>, row: TreeRow): (r: seq<AwardNode>)
    requires row.awardId.Some?
    ensures AwardIds(r) == AwardIds(WithAward(awards, row))
  {
    var aid := row.awardId.value;
    var a1 := WithAward(awards, row);
    if row.nomineeId.None? then a1
    else
      var k := IndexOf(AwardIds(a1), aid).value;
      var n := NomineeNode(row.nomineeId.value, row.nomineeName, row.nomineeDescription, row.nomineeLink);
      var r := a1[k := a1[k].(nominees := PutNominee(a1[k].nominees, n))];
      assert AwardIds(r) == AwardIds(a1);
      r
  }

  /** `if gid not in tree.keys(): tree[gid] = {...}`: the row's group, created when missing. */
  function WithGroup(tree: seq<GroupNode>, row: TreeRow): (r: seq<GroupNode>)
    ensures GroupIds(r) == if row.groupId in GroupIds(tree) then GroupIds(tree) else GroupIds(tree) + [row.groupId]
    ensures |tree| <= |r| && forall k :: 0 <= k < |tree| ==> r[k] == tree[k]
    ensures |r| > |tree| ==> |r| == |tree| + 1 && r[|tree|].awards == []
  {
    var gid := row.groupId;
    if gid in GroupIds(tree) then tree
    else
      var r := tree + [GroupNode(gid, row.groupName, row.groupDescription, row.groupImage, [])];
      assert GroupIds(r) == GroupIds(tree) + [gid];
      r
  }

  /** One iteration of the grouping loop of `query_full_tree`. */
  function AddRow(tree: seq<GroupNode>, row: TreeRow): (r: seq<GroupNode>)
    ensures GroupIds(r) == GroupIds(WithGroup(tree, row))
  {
    var t1 := WithGroup(tree, row);
    if row.awardId.None? then t1
    else
      var g := IndexOf(GroupIds(t1), row.groupId).value;
      var r := t1[g := t1[g].(awards := AddAward(t1[g].awards, row))];
      assert GroupIds(r) == GroupIds(t1);
      r
  }

  /** The tree after the grouping loop has seen `rows`. */
  function TreeOf(rows: seq<TreeRow>): seq<GroupNode>
  {
    if rows == [] then [] else AddRow(TreeOf(rows[..|rows| - 1]), rows[|rows| - 1])
  }

  function RowGroupIds(rows: seq<TreeRow>): seq<int>
  {
    Keys(rows, (row: TreeRow) => row.groupId)
  }

  /** The groups of the tree are the distinct group ids of the rows, in first-occurrence order. */
  lemma {:induction false} TreeGroupIds(rows: seq<TreeRow>)
    ensures GroupIds(TreeOf(rows)) == Dedup(RowGroupIds(rows))
  {
    if rows != [] {
      var init := rows[..|rows| - 1];
      TreeGroupIds(init);
      assert RowGroupIds(rows)[..|rows| - 1] == RowGroupIds(init);
    }
  }

  /** The awards of group `gid`, or none when the tree has no such group. */
  function AwardsOf(tree: seq<GroupNode>, gid: int): seq<AwardNode>
  {
    match IndexOf(GroupIds(tree), gid)
    case Some(k) => tree[k].awards
    case None => []
  }

  /** The nominees of award `aid` among `awards`, or none. */
  function NomineesIn(awards: seq<AwardNode>, aid: int): seq<NomineeNode>
  {
    match IndexOf(AwardIds(awards), aid)
    case Some(k) => awards[k].nominees
    case None => []
  }

  /** A row whose award id is NULL adds no award to any group. */
  lemma NoAwardRowAddsNoAward(tree: seq<GroupNode>, row: TreeRow, gid: int)
    requires row.awardId.None?
    ensures AwardsOf(AddRow(tree, row), gid) == AwardsOf(tree, gid)
  {
    if row.groupId !in GroupIds(tree) {
      IndexOfSnoc(GroupIds(tree), row.groupId, gid);
    }
  }

  /** A row whose nominee id is NULL adds no nominee to any award already there. */
  lemma NoNomineeRowAddsNoNominee(awards: seq<AwardNode>, row: TreeRow, aid: int)
    requires row.awardId.Some? && row.nomineeId.None?
    ensures NomineesIn(AddAward(awards, row), aid) == NomineesIn(awards, aid)
  {
    var x := row.awardId.value;
    if x !in AwardIds(awards) {
      IndexOfSnoc(AwardIds(awards), x, aid);
    }
  }

  /** The row just folded in is in the tree: its group, its award under the group, its nominee under the award. */
  lemma RowIsRecorded(tree: seq<GroupNode>, row: TreeRow)
    ensures row.groupId in GroupIds(AddRow(tree, row))
    ensures row.awardId.Some? ==> row.awardId.value in AwardIds(AwardsOf(AddRow(tree, row), row.groupId))
    ensures row.awardId.Some? && row.nomineeId.Some? ==>
      NomineeNode(row.nomineeId.value, row.nomineeName, row.nomineeDescription, row.nomineeLink)
        in NomineesIn(AwardsOf(AddRow(tree, row), row.groupId), row.awardId.value)
  {
    if row.awardId.Some? {
      var gid, aid := row.groupId, row.awardId.value;
      var t1 := WithGroup(tree, row);
      var g := IndexOf(GroupIds(t1), gid).value;
      var awards := AddAward(t1[g].awards, row);
      var r := t1[g := t1[g].(awards := awards)];
      assert GroupIds(r) == GroupIds(t1);
      assert AwardsOf(r, gid) == awards;
      if row.nomineeId.Some? {
        var a1 := WithAward(t1[g].awards, row);
        var k := IndexOf(AwardIds(a1), aid).value;
        var n := NomineeNode(row.nomineeId.value, row.nomineeName, row.nomineeDescription, row.nomineeLink);
        assert awards == a1[k := a1[k].(nominees := PutNominee(a1[k].nominees, n))];
        assert NomineesIn(awards, aid) == PutNominee(a1[k].nominees, n);
      }
    }
  }

  /** Keys are unique at every level of the tree, as dict keys are. */
  predicate WellFormed(tree: seq<GroupNode>)
  {
    && Distinct(GroupIds(tree))
    && (forall g :: 0 <= g < |tree| ==> Distinct(AwardIds(tree[g].awards)))
    && (forall g, a :: 0 <= g < |tree| && 0 <= a < |tree[g].awards| ==> Distinct(NomineeIds(tree[g].awards[a].nominees)))
  }

  lemma DistinctSnoc(ids: seq<int>, x: int)
    requires Distinct(ids) && x !in ids
    ensures Distinct(ids + [x])
  {
    forall i, j | 0 <= i < j < |ids| + 1 ensures (ids + [x])[i] != (ids + [x])[j] {
      if j == |ids| {
        assert (ids + [x])[i] == ids[i];
      }
    }
  }

  lemma PutNomineeDistinct(nominees: seq<NomineeNode>, n: NomineeNode)
    requires Distinct(NomineeIds(nominees))
    ensures Distinct(NomineeIds(PutNominee(nominees, n)))
  {
    if n.id !in NomineeIds(nominees) {
      DistinctSnoc(NomineeIds(nominees), n.id);
    }
  }

  lemma WithAwardWellFormed(awards: seq<AwardNode>, row: TreeRow)
    requires row.awardId.Some?
    requires Distinct(AwardIds(awards))
    requires forall a :: 0 <= a < |awards| ==> Distinct(NomineeIds(awards[a].nominees))
    ensures var r := WithAward(awards, row);
      Distinct(AwardIds(r)) && forall a :: 0 <= a < |r| ==> Distinct(NomineeIds(r[a].nominees))
  {
    if row.awardId.value !in AwardIds(awards) {
      DistinctSnoc(AwardIds(awards), row.awardId.value);
      assert NomineeIds([]) == [];
    }
  }

  lemma {:induction false} AddAwardWellFormed(awards: seq<AwardNode>, row: TreeRow)
    requires row.awardId.Some?
    requires Distinct(AwardIds(awards))
    requires forall a :: 0 <= a < |awards| ==> Distinct(NomineeIds(awards[a].nominees))
    ensures var r := AddAward(awards, row);
      Distinct(AwardIds(r)) && forall a :: 0 <= a < |r| ==> Distinct(NomineeIds(r[a].nominees))
  {
    var a1 := WithAward(awards, row);
    WithAwardWellFormed(awards, row);
    if row.nomineeId.Some? {
      var k := IndexOf(AwardIds(a1), row.awardId.value).value;
      var n := NomineeNode(row.nomineeId.value, row.nomineeName, row.nomineeDescription, row.nomineeLink);
      PutNomineeDistinct(a1[k].nominees, n);
      assert AddAward(awards, row) == a1[k := a1[k].(nominees := PutNominee(a1[k].nominees, n))];
    }
  }

  lemma WithGroupWellFormed(tree: seq<GroupNode>, row: TreeRow)
    requires WellFormed(tree)
    ensures WellFormed(WithGroup(tree, row))
  {
    if row.groupId !in GroupIds(tree) {
      DistinctSnoc(GroupIds(tree), row.groupId);
      assert AwardIds([]) == [];
    }
  }

  /** The loop keeps every key unique. */
  lemma {:induction false} AddRowWellFormed(tree: seq<GroupNode>, row: TreeRow)
    requires WellFormed(tree)
    ensures WellFormed(AddRow(tree, row))
  {
    var t1 := WithGroup(tree, row);
    WithGroupWellFormed(tree, row);
    if row.awardId.Some? {
      var g := IndexOf(GroupIds(t1), row.groupId).value;
      AddAwardWellFormed(t1[g].awards, row);
      var r := t1[g := t1[g].(awards := AddAward(t1[g].awards, row))];
      assert GroupIds(r) == GroupIds(t1);
      assert AddRow(tree, row) == r;
    }
  }

  lemma {:induction false} TreeWellFormed(rows: seq<TreeRow>)
    ensures WellFormed(TreeOf(rows))
  {
    if rows != [] {
      TreeWellFormed(rows[..|rows| - 1]);
      AddRowWellFormed(TreeOf(rows[..|rows| - 1]), rows[|rows| - 1]);
    }
  }

  // ---------------------------------------------------------------------------
  // query_full_tree: the messages
  // ---------------------------------------------------------------------------

  datatype TreeMessage = TreeMessage(groupText: string, image: Option<string>, awardTexts: seq<string>)

  /** The bold group heading, with its description when that is not the empty string. */
  function GroupText(g: GroupNode): string
  {
    var text := "**" + Show(g.name) + "**" + (if g.description != Some("") then "\n**" + Show(g.description) + "**" else "");
    if ShowIdNumbers then "**" + IntToString(g.id) + ".** " + text else text
  }

  /** One nominee line: a markdown link, then the description when that is not the empty string. */
  function NomineeText(n: NomineeNode): string
  {
    var text := "[" + Show(n.name) + "](" + Show(n.link) + ")"
      + (if n.description != Some("") then " - " + Show(n.description) else "") + "\n";
    if ShowIdNumbers then "**" + IntToString(n.id) + ". **" + text else text
  }

  function NomineeTexts(nominees: seq<NomineeNode>): seq<string>
  {
    seq(|nominees|, k requires 0 <= k < |nominees| => NomineeText(nominees[k]))
  }

  /** An award in a code block, followed by its nominees as a quote when it has any. */
  function AwardText(a: AwardNode): string
  {
    var head := Show(a.name) + ": " + Show(a.description);
    var text := "```" + (if ShowIdNumbers then IntToString(a.id) + ". " + head else head) + "```\n";
    var block := Concat(NomineeTexts(a.nominees));
    if block != "" then text + ">>> " + block else text
  }

  /** Nominee lines are never empty: each ends with a line break. */
  lemma NomineeTextNonEmpty(n: NomineeNode)
    ensures NomineeText(n) != "" && NomineeText(n)[|NomineeText(n)| - 1] == '\n'
  {
  }

  /** An award's text carries the `>>> ` nominee quote exactly when the award has nominees. */
  lemma AwardQuotesItsNominees(a: AwardNode)
    ensures var head := Show(a.name) + ": " + Show(a.description);
      var text := "```" + (if ShowIdNumbers then IntToString(a.id) + ". " + head else head) + "```\n";
      if a.nominees == [] then AwardText(a) == text
      else AwardText(a) == text + ">>> " + Concat(NomineeTexts(a.nominees))
  {
    var texts := NomineeTexts(a.nominees);
    ConcatEmptyIff(texts);
    if a.nominees != [] {
      NomineeTextNonEmpty(a.nominees[0]);
      assert texts[0] != "";
    }
  }

  function AwardTexts(awards: seq<AwardNode>): seq<string>
  {
    seq(|awards|, k requires 0 <= k < |awards| => AwardText(awards[k]))
  }

  function GroupMessage(g: GroupNode): TreeMessage
  {
    TreeMessage(GroupText(g), g.imageLink, AwardTexts(g.awards))
  }

  /** The grouping loop of `query_full_tree`. */
  method BuildTree(data: seq<TreeRow>) returns (tree: seq<GroupNode>)
    ensures tree == TreeOf(data)
  {
    tree := [];
    var i := 0;
    while i < |data|
      invariant 0 <= i <= |data|
      invariant tree == TreeOf(data[..i])
    {
      assert data[..i + 1][..i] == data[..i];
      tree := AddRow(tree, data[i]);
      i := i + 1;
    }
    assert data[..i] == data;
  }

  /** `f` applied to each element, in order: what a loop appending `f(x)` for each `x` builds. */
  function Rendered<A, B>(f: A -> B, xs: seq<A>): seq<B>
  {
    if xs == [] then [] else Rendered(f, xs[..|xs| - 1]) + [f(xs[|xs| - 1])]
  }

  /** One output per input, and output k is `f` of input k. */
  lemma {:induction false} RenderedAt<A, B>(f: A -> B, xs: seq<A>)
    ensures |Rendered(f, xs)| == |xs|
    ensures forall k :: 0 <= k < |xs| ==> Rendered(f, xs)[k] == f(xs[k])
  {
    if xs != [] {
      RenderedAt(f, xs[..|xs| - 1]);
    }
  }

  /** The messages of the groups, in tree order. */
  function TreeMessages(tree: seq<GroupNode>): seq<TreeMessage>
  {
    Rendered(GroupMessage, tree)
  }

  /** The rendering loop of `query_full_tree`. */
  method RenderTree(tree: seq<GroupNode>) returns (messages: seq<TreeMessage>)
    ensures messages == TreeMessages(tree)
  {
    messages := [];
    var i := 0;
    while i < |tree|
      invariant 0 <= i <= |tree|
      invariant messages == TreeMessages(tree[..i])
    {
      assert tree[..i + 1][..i] == tree[..i];
      messages := messages + [GroupMessage(tree[i])];
      i := i + 1;
    }
    assert tree[..i] == tree;
  }

  /**
   * `query_full_tree` over the rows the query returned: (False, None) for no
   * rows; otherwise the messages of the groups the grouping loop built, in
   * building order.
   */
  method QueryFullTree(data: seq<TreeRow>) returns (found: bool, messages: Option<seq<TreeMessage>>)
    ensures found <==> data != []
    ensures !found ==> messages == None
    ensures found ==> messages == Some(TreeMessages(TreeOf(data)))
  {
    if |data| == 0 {
      return false, None;
    }
    var tree := BuildTree(data);
    var rendered := RenderTree(tree);
    return true, Some(rendered);
  }

  /**
   * One message per distinct group id of the rows, in first-occurrence order;
   * message k renders the group with the k-th such id.
   */
  lemma FullTreeMessagePerGroup(data: seq<TreeRow>, k: nat)
    requires k < |Dedup(RowGroupIds(data))|
    ensures |TreeMessages(TreeOf(data))| == |Dedup(RowGroupIds(data))|
    ensures k < |TreeOf(data)| && TreeOf(data)[k].id == Dedup(RowGroupIds(data))[k]
    ensures TreeMessages(TreeOf(data))[k] == GroupMessage(TreeOf(data)[k])
  {
    TreeGroupIds(data);
    RenderedAt(GroupMessage, TreeOf(data));
  }

  // ---------------------------------------------------------------------------
  // Award.list_all_entries
  // ---------------------------------------------------------------------------

  /**
   * One row of the awards query: a.award_id, a.name, a.description,
   * g.group_id, g.name, g.description, g.image_link. A group without awards
   * comes back once with NULL award columns.
   */
  datatype AwardRow = AwardRow(
    awardId: Option<int>, awardName: Option<string>, awardDescription: Option<string>,
    groupId: int, groupName: Option<string>, groupDescription: Option<string>, groupImage: Option<string>)

  /** `groups[group_id]`: the group's columns from its first row, and one award line per row. */
  datatype GroupAwards = GroupAwards(
    id: int, name: Option<string>, description: Option<string>, image: Option<string>, awards: seq<string>)

  /** `f"{award_id}. {name}: {description}"`. */
  function AwardLine(row: AwardRow): string
  {
    ShowInt(row.awardId) + ". " + Show(row.awardName) + ": " + Show(row.awardDescription)
  }

  function ListedGroupIds(groups: seq<GroupAwards>): seq<int>
  {
    Keys(groups, (g: GroupAwards) => g.id)
  }

  /** One iteration of the grouping loop: open the group with this row's award, or append the award to it. */
  function AddAwardRow(groups: seq<GroupAwards>, row: AwardRow): (r: seq<GroupAwards>)
    ensures ListedGroupIds(r) ==
      if row.groupId in ListedGroupIds(groups) then ListedGroupIds(groups) else ListedGroupIds(groups) + [row.groupId]
  {
    match IndexOf(ListedGroupIds(groups), row.groupId)
    case None =>
      var r := groups + [GroupAwards(row.groupId, row.groupName, row.groupDescription, row.groupImage, [AwardLine(row)])];
      assert ListedGroupIds(r) == ListedGroupIds(groups) + [row.groupId];
      r
    case Some(k) =>
      var r := groups[k := groups[k].(awards := groups[k].awards + [AwardLine(row)])];
      assert ListedGroupIds(r) == ListedGroupIds(groups);
      r
  }

  function GroupAwardsOf(rows: seq<AwardRow>): seq<GroupAwards>
  {
    if rows == [] then [] else AddAwardRow(GroupAwardsOf(rows[..|rows| - 1]), rows[|rows| - 1])
  }

  function AwardRowGroupIds(rows: seq<AwardRow>): seq<int>
  {
    Keys(rows, (row: AwardRow) => row.groupId)
  }

  /** The award lines of the rows that belong to group `gid`, in row order. */
  function LinesOfGroup(rows: seq<AwardRow>, gid: int): seq<string>
  {
    if rows == [] then []
    else
      var last := rows[|rows| - 1];
      LinesOfGroup(rows[..|rows| - 1], gid) + (if last.groupId == gid then [AwardLine(last)] else [])
  }

  /** The award lines listed under group `gid`, or none when it is not listed. */
  function ListedLines(groups: seq<GroupAwards>, gid: int): seq<string>
  {
    match IndexOf(ListedGroupIds(groups), gid)
    case Some(k) => groups[k].awards
    case None => []
  }

  /** Each group id is listed once, in first-occurrence order. */
  lemma {:induction false} ListedGroupsDedup(rows: seq<AwardRow>)
    ensures ListedGroupIds(GroupAwardsOf(rows)) == Dedup(AwardRowGroupIds(rows))
  {
    if rows != [] {
      var init := rows[..|rows| - 1];
      ListedGroupsDedup(init);
      assert AwardRowGroupIds(rows)[..|rows| - 1] == AwardRowGroupIds(init);
    }
  }

  /** One row appends its award line to its own group's lines and to no other. */
  lemma AddAwardRowLines(groups: seq<GroupAwards>, row: AwardRow, gid: int)
    ensures ListedLines(AddAwardRow(groups, row), gid)
         == ListedLines(groups, gid) + (if row.groupId == gid then [AwardLine(row)] else [])
  {
    var ids := ListedGroupIds(groups);
    match IndexOf(ids, row.groupId)
    case None =>
      var r := groups + [GroupAwards(row.groupId, row.groupName, row.groupDescription, row.groupImage, [AwardLine(row)])];
      assert ListedGroupIds(r) == ids + [row.groupId];
      IndexOfSnoc(ids, row.groupId, gid);
    case Some(k) =>
      var r := groups[k := groups[k].(awards := groups[k].awards + [AwardLine(row)])];
      assert ListedGroupIds(r) == ids;
      var j := IndexOf(ids, gid);
      if gid != row.groupId && j.Some? {
        assert j.value != k;
      }
  }

  /** A group lists exactly the awards of its rows, in row order. */
  lemma {:induction false} ListedLinesInRowOrder(rows: seq<AwardRow>, gid: int)
    ensures ListedLines(GroupAwardsOf(rows), gid) == LinesOfGroup(rows, gid)
  {
    if rows != [] {
      ListedLinesInRowOrder(rows[..|rows| - 1], gid);
      AddAwardRowLines(GroupAwardsOf(rows[..|rows| - 1]), rows[|rows| - 1], gid);
    }
  }

  /** A group with no awards shows the NULL award columns as printed by an f-string. */
  lemma AwardlessGroupLine(row: AwardRow)
    requires row.awardId.None? && row.awardName.None? && row.awardDescription.None?
    ensures AwardLine(row) == "None. None: None"
  {
  }

  datatype SimpleMessage = SimpleMessage(text: string, image: Option<string>, textAfterImage: string)

  /** A group's message: id, name and description, the image, and its award lines in a code block. */
  function GroupListing(g: GroupAwards): SimpleMessage
  {
    SimpleMessage(
      IntToString(g.id) + ". " + Show(g.name) + "\n" + Show(g.description),
      g.image,
      "```" + Join("\n", g.awards) + "```")
  }

  /** The grouping loop of `Award.list_all_entries`. */
  method GroupRows(data: seq<AwardRow>) returns (groups: seq<GroupAwards>)
    ensures groups == GroupAwardsOf(data)
  {
    groups := [];
    var i := 0;
    while i < |data|
      invariant 0 <= i <= |data|
      invariant groups == GroupAwardsOf(data[..i])
    {
      assert data[..i + 1][..i] == data[..i];
      groups := AddAwardRow(groups, data[i]);
      i := i + 1;
    }
    assert data[..i] == data;
  }

  /** The messages of the groups, in order. */
  function GroupListings(groups: seq<GroupAwards>): seq<SimpleMessage>
  {
    Rendered(GroupListing, groups)
  }

  /** The rendering loop of `Award.list_all_entries`. */
  method RenderGroups(groups: seq<GroupAwards>) returns (messages: seq<SimpleMessage>)
    ensures messages == GroupListings(groups)
  {
    messages := [];
    var i := 0;
    while i < |groups|
      invariant 0 <= i <= |groups|
      invariant messages == GroupListings(groups[..i])
    {
      assert groups[..i + 1][..i] == groups[..i];
      messages := messages + [GroupListing(groups[i])];
      i := i + 1;
    }
    assert groups[..i] == groups;
  }

  /**
   * One message per distinct group id of the rows, in first-occurrence order;
   * message k renders the group with the k-th such id, whose code block holds
   * the award lines of that group's rows in row order.
   */
  lemma AwardListingPerGroup(data: seq<AwardRow>, k: nat)
    requires k < |Dedup(AwardRowGroupIds(data))|
    ensures |GroupListings(GroupAwardsOf(data))| == |Dedup(AwardRowGroupIds(data))|
    ensures k < |GroupAwardsOf(data)|
    ensures GroupAwardsOf(data)[k].id == Dedup(AwardRowGroupIds(data))[k]
    ensures GroupAwardsOf(data)[k].awards == LinesOfGroup(data, Dedup(AwardRowGroupIds(data))[k])
    ensures GroupListings(GroupAwardsOf(data))[k] == GroupListing(GroupAwardsOf(data)[k])
  {
    var groups := GroupAwardsOf(data);
    var ids := ListedGroupIds(groups);
    ListedGroupsDedup(data);
    RenderedAt(GroupListing, groups);
    var gid := ids[k];
    assert IndexOf(ids, gid) == Some(k);
    ListedLinesInRowOrder(data, gid);
  }

  /**
   * `Award.list_all_entries` over the rows the query returned: (False, None)
   * for no rows; otherwise one message per group, in the order the grouping
   * loop opened them.
   */
  method ListAllAwards(data: seq<AwardRow>) returns (found: bool, messages: Option<seq<SimpleMessage>>)
    ensures found <==> data != []
    ensures !found ==> messages == None
    ensures found ==> messages == Some(GroupListings(GroupAwardsOf(data)))
  {
    if |data| == 0 {
      return false, None;
    }
    var groups := GroupRows(data);
    var rendered := RenderGroups(groups);
    return true, Some(rendered);
  }
}
