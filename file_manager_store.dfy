/** The file-tree store of the file manager: a dictionary of tree nodes keyed
    by id, the selected node, the current project and a loading flag. The
    create, rename and delete actions ask the server first; the server's
    answer is a parameter here. */
module FileManagerStore {
  import opened Wrappers
  import opened Overlays

  datatype NodeType = File | Folder

  /** A tree node as the store holds it. Every property may be missing,
      because the rename action can store an object holding only a name;
      a null `parentId` and a missing one are both `None`, since the store
      only compares it against ids. */
  datatype TreeNode = TreeNode(id: Option<string>, name: Option<string>, nodeType: Option<NodeType>,
                               parentId: Option<string>, isExpanded: Option<bool>)

  /** A `Partial<TreeNode>` update: the properties it sets. */
  datatype NodeUpdate = NodeUpdate(id: Option<string>, name: Option<string>, nodeType: Option<NodeType>,
                                   parentId: Option<Option<string>>, isExpanded: Option<bool>)

  /** The object with no properties, which spreading `undefined` gives. */
  const Blank := TreeNode(None, None, None, None, None)

  /** The dictionary key `nodeMap[node.id]` writes: a node without an id is
      stored under "undefined". */
  function Key(node: TreeNode): string {
    if node.id.Some? then node.id.value else "undefined"
  }

  /** `if (!projectId) return` lets an action through only for a project id
      that is set and not the empty string, which is falsy. */
  predicate HasProject(projectId: Option<string>) {
    projectId.Some? && projectId.value != ""
  }

  /** `!node.isExpanded`: a missing flag is falsy, so it becomes true. */
  function Flip(flag: Option<bool>): (r: Option<bool>)
    ensures r.Some? && (r.value <==> flag != Some(true))
  {
    Some(!(flag == Some(true)))
  }

  // ---- setNodes ----

  function NodeEntries(list: seq<TreeNode>): (r: seq<map<string, TreeNode>>)
    ensures |r| == |list|
    ensures forall i :: 0 <= i < |list| ==> r[i] == map[Key(list[i]) := list[i]]
  {
    seq(|list|, i requires 0 <= i < |list| => map[Key(list[i]) := list[i]])
  }

  /** The dictionary the `forEach` of `setNodes` builds. */
  function NodeMap(list: seq<TreeNode>): map<string, TreeNode> {
    Overlay(NodeEntries(list))
  }

  lemma NodeMapSnoc(list: seq<TreeNode>, n: nat)
    requires n < |list|
    ensures NodeMap(list[..n + 1]) == NodeMap(list[..n]) + map[Key(list[n]) := list[n]]
  {
    assert NodeEntries(list[..n + 1])[..n] == NodeEntries(list[..n]);
  }

  /** Exactly the ids of the listed nodes are keys. */
  lemma NodeMapKeys(list: seq<TreeNode>, key: string)
    ensures key in NodeMap(list) <==> exists i :: 0 <= i < |list| && Key(list[i]) == key
  {
    OverlayKeys(NodeEntries(list), key);
    if key in NodeMap(list) {
      var i :| 0 <= i < |list| && key in NodeEntries(list)[i];
      assert Key(list[i]) == key;
    }
  }

  /** Of several nodes with one id, the last in the list is kept. */
  lemma NodeMapLastWins(list: seq<TreeNode>, i: nat)
    requires i < |list|
    requires forall j :: i < j < |list| ==> Key(list[j]) != Key(list[i])
    ensures Key(list[i]) in NodeMap(list) && NodeMap(list)[Key(list[i])] == list[i]
  {
    OverlayLastWins(NodeEntries(list), Key(list[i]), i);
  }

  // ---- The dictionary effects of the actions ----

  /** `toggleFolder`: flips the flag of a folder; anything else is left alone. */
  function Toggled(nodes: map<string, TreeNode>, id: string): map<string, TreeNode> {
    if id in nodes && nodes[id].nodeType == Some(Folder)
    then nodes[id := nodes[id].(isExpanded := Flip(nodes[id].isExpanded))]
    else nodes
  }

  /** `{ ...node, ...updates }`. */
  function Merge(node: TreeNode, u: NodeUpdate): (r: TreeNode)
    ensures u.id.None? ==> r.id == node.id
    ensures u.name.None? ==> r.name == node.name
    ensures u.nodeType.None? ==> r.nodeType == node.nodeType
    ensures u.parentId.None? ==> r.parentId == node.parentId
    ensures u.isExpanded.None? ==> r.isExpanded == node.isExpanded
  {
    TreeNode(if u.id.Some? then u.id else node.id,
             if u.name.Some? then u.name else node.name,
             if u.nodeType.Some? then u.nodeType else node.nodeType,
             if u.parentId.Some? then u.parentId.value else node.parentId,
             if u.isExpanded.Some? then u.isExpanded else node.isExpanded)
  }

  /** `updateNode`: merges into a present node, otherwise nothing. */
  function Updated(nodes: map<string, TreeNode>, id: string, u: NodeUpdate): map<string, TreeNode> {
    if id in nodes then nodes[id := Merge(nodes[id], u)] else nodes
  }

  /** The dictionary after a successful rename: `{ ...nodes[id], name }`,
      which for an absent id is an object holding only the name. */
  function Renamed(nodes: map<string, TreeNode>, id: string, newName: string): map<string, TreeNode> {
    var node := if id in nodes then nodes[id] else Blank;
    nodes[id := node.(name := Some(newName))]
  }

  /** `removeNodeAndChildren` as it behaves when its recursion ends: the
      copy loses `nodeId`, and the recursive calls for the children build
      copies of their own that are thrown away. */
  function RemoveNodeAndChildren(nodeId: string, nodeMap: map<string, TreeNode>): map<string, TreeNode> {
    nodeMap - {nodeId}
  }

  // ---- The store ----

  class Store {
    var nodes: map<string, TreeNode>
    var selectedNodeId: Option<string>
    var projectId: Option<string>
    var isLoading: bool

    constructor ()
      ensures nodes == map[] && selectedNodeId == None && projectId == None && !isLoading
    {
      nodes := map[];
      selectedNodeId := None;
      projectId := None;
      isLoading := false;
    }

    method SetProjectId(id: string)
      modifies this
      ensures projectId == Some(id)
      ensures nodes == old(nodes) && selectedNodeId == old(selectedNodeId) && isLoading == old(isLoading)
    {
      projectId := Some(id);
    }

    /** `setNodes`: the list becomes the dictionary, keyed by id, and loading ends. */
    method SetNodes(list: seq<TreeNode>)
      modifies this
      ensures nodes == NodeMap(list) && !isLoading
      ensures selectedNodeId == old(selectedNodeId) && projectId == old(projectId)
    {
      var nodeMap: map<string, TreeNode> := map[];
      for n := 0 to |list|
        invariant nodeMap == NodeMap(list[..n])
        invariant selectedNodeId == old(selectedNodeId) && projectId == old(projectId)
      {
        var node := list[n];
        UpdateIsUnion(nodeMap, Key(node), node);
        nodeMap := nodeMap[Key(node) := node];
        NodeMapSnoc(list, n);
      }
      assert list[..|list|] == list;
      nodes := nodeMap;
      isLoading := false;
    }

    method SelectNode(id: Option<string>)
      modifies this
      ensures selectedNodeId == id
      ensures nodes == old(nodes) && projectId == old(projectId) && isLoading == old(isLoading)
    {
      selectedNodeId := id;
    }

    method ToggleFolder(id: string)
      modifies this
      ensures nodes == Toggled(old(nodes), id)
      ensures selectedNodeId == old(selectedNodeId) && projectId == old(projectId) && isLoading == old(isLoading)
    {
      if id in nodes && nodes[id].nodeType == Some(Folder) {
        var node := nodes[id];
        nodes := nodes[id := node.(isExpanded := Flip(node.isExpanded))];
      }
    }

    method UpdateNode(id: string, updates: NodeUpdate)
      modifies this
      ensures nodes == Updated(old(nodes), id, updates)
      ensures selectedNodeId == old(selectedNodeId) && projectId == old(projectId) && isLoading == old(isLoading)
    {
      if id in nodes {
        nodes := nodes[id := Merge(nodes[id], updates)];
      }
    }

    /** `createFolder`: without a project (no id, or the empty id) nothing
        happens; otherwise the folder the server returns is stored when the
        server accepts. */
    method CreateFolder(serverOk: bool, newFolder: TreeNode)
      modifies this
      ensures HasProject(projectId) && serverOk ==> nodes == old(nodes)[Key(newFolder) := newFolder]
      ensures !HasProject(projectId) || !serverOk ==> nodes == old(nodes)
      ensures selectedNodeId == old(selectedNodeId) && projectId == old(projectId) && isLoading == old(isLoading)
    {
      if projectId.None? || projectId.value == "" {
        return;
      }
      if serverOk {
        nodes := nodes[Key(newFolder) := newFolder];
      }
    }

    method RenameNode(id: string, newName: string, serverOk: bool)
      modifies this
      ensures HasProject(projectId) && serverOk ==> nodes == Renamed(old(nodes), id, newName)
      ensures !HasProject(projectId) || !serverOk ==> nodes == old(nodes)
      ensures selectedNodeId == old(selectedNodeId) && projectId == old(projectId) && isLoading == old(isLoading)
    {
      if projectId.None? || projectId.value == "" {
        return;
      }
      if serverOk {
        var node := if id in nodes then nodes[id] else Blank;
        nodes := nodes[id := node.(name := Some(newName))];
      }
    }

    method DeleteNode(id: string, serverOk: bool)
      modifies this
      ensures HasProject(projectId) && serverOk ==>
        nodes == RemoveNodeAndChildren(id, old(nodes))
        && selectedNodeId == (if old(selectedNodeId) == Some(id) then None else old(selectedNodeId))
      ensures !HasProject(projectId) || !serverOk ==> nodes == old(nodes) && selectedNodeId == old(selectedNodeId)
      ensures projectId == old(projectId) && isLoading == old(isLoading)
    {
      if projectId.None? || projectId.value == "" {
        return;
      }
      if serverOk {
        nodes := RemoveNodeAndChildren(id, nodes);
        selectedNodeId := if selectedNodeId == Some(id) then None else selectedNodeId;
      }
    }

    method AddFile(file: TreeNode)
      modifies this
      ensures nodes == old(nodes)[Key(file) := file]
      ensures selectedNodeId == old(selectedNodeId) && projectId == old(projectId) && isLoading == old(isLoading)
    {
      nodes := nodes[Key(file) := file];
    }
  }

  // ---- Properties of the effects ----

  /** Toggling touches only a folder's flag: the keys stay, every other
      entry stays, and files and absent ids are left alone. */
  lemma ToggleOnlyFlipsFolders(nodes: map<string, TreeNode>, id: string)
    ensures Toggled(nodes, id).Keys == nodes.Keys
    ensures forall k :: k in nodes && k != id ==> Toggled(nodes, id)[k] == nodes[k]
    ensures id in nodes && nodes[id].nodeType == Some(Folder) ==>
      Toggled(nodes, id)[id] == nodes[id].(isExpanded := Some(nodes[id].isExpanded != Some(true)))
    ensures id !in nodes || nodes[id].nodeType != Some(Folder) ==> Toggled(nodes, id) == nodes
  {
  }

  /** Toggling twice restores a folder whose flag is set, and anything else. */
  lemma ToggleTwice(nodes: map<string, TreeNode>, id: string)
    requires id in nodes && nodes[id].nodeType == Some(Folder) ==> nodes[id].isExpanded.Some?
    ensures Toggled(Toggled(nodes, id), id) == nodes
  {
    if id in nodes && nodes[id].nodeType == Some(Folder) {
      var node := nodes[id];
      if node.isExpanded == Some(true) {
        assert Flip(node.isExpanded) == Some(false);
      } else {
        assert node.isExpanded.Some? && !node.isExpanded.value;
        assert Flip(node.isExpanded) == Some(true);
      }
      assert Toggled(Toggled(nodes, id), id)[id] == node;
    }
  }

  /** A folder whose flag was never set opens on the first toggle and then
      closes: two toggles leave `false`, not the missing flag. */
  lemma ToggleTwiceSetsMissingFlag(nodes: map<string, TreeNode>, id: string)
    requires id in nodes && nodes[id].nodeType == Some(Folder) && nodes[id].isExpanded.None?
    ensures Toggled(nodes, id)[id].isExpanded == Some(true)
    ensures Toggled(Toggled(nodes, id), id)[id].isExpanded == Some(false)
  {
  }

  /** An update changes only the entry under `id`, and only when it exists;
      the key stays `id` even when the update changes the node's own id. */
  lemma UpdateOnlyTouchesId(nodes: map<string, TreeNode>, id: string, u: NodeUpdate)
    ensures Updated(nodes, id, u).Keys == nodes.Keys
    ensures forall k :: k in nodes && k != id ==> Updated(nodes, id, u)[k] == nodes[k]
    ensures id !in nodes ==> Updated(nodes, id, u) == nodes
    ensures id in nodes && u.id.Some? ==> Updated(nodes, id, u)[id].id == u.id
  {
  }

  /** A successful rename changes only the name under `id`; for an id not in
      the dictionary it adds an entry holding only the name. */
  lemma RenameOnlyChangesName(nodes: map<string, TreeNode>, id: string, newName: string)
    ensures Renamed(nodes, id, newName).Keys == nodes.Keys + {id}
    ensures forall k :: k in nodes && k != id ==> Renamed(nodes, id, newName)[k] == nodes[k]
    ensures id in nodes ==> Renamed(nodes, id, newName)[id] == nodes[id].(name := Some(newName))
    ensures id !in nodes ==> Renamed(nodes, id, newName)[id] == TreeNode(None, Some(newName), None, None, None)
  {
  }

  /** A successful delete removes the key `id` and nothing else: the
      children of `id` stay in the dictionary. */
  lemma DeleteKeepsChildren(nodes: map<string, TreeNode>, id: string)
    ensures RemoveNodeAndChildren(id, nodes).Keys == nodes.Keys - {id}
    ensures forall k :: k in nodes && k != id ==> RemoveNodeAndChildren(id, nodes)[k] == nodes[k]
    ensures forall k :: k in nodes && nodes[k].parentId == Some(id) && k != id ==>
      k in RemoveNodeAndChildren(id, nodes)
  {
  }

  /** Adding a file writes exactly its own key. */
  lemma AddFileWritesOneKey(nodes: map<string, TreeNode>, file: TreeNode)
    ensures (nodes[Key(file) := file]).Keys == nodes.Keys + {Key(file)}
    ensures forall k :: k in nodes && k != Key(file) ==> nodes[Key(file) := file][k] == nodes[k]
  {
  }
}
