/** The translator's node objects: the `FastbuildAction` hierarchy
    (`ObjectGroup`, `LinkAction`, `ExecAction`) and the Unreal `Action` they
    are parsed from.

    C# object identity is modelled by position: every parsed action gets its
    own node whose `handle` is the action's index in the batch, and node
    references (dependency lists, node lists) are lists of handles into a
    `Store` keyed by that index (the `actionLinks` dictionary). */
module Nodes {
  import opened Outcomes
  import opened Text
  import opened Tools
  import Paths

  datatype ActionKind = Compile | Link | Other

  /** An Unreal build action reduced to what the translator reads. A
      prerequisite names the index of its producing action in the same batch,
      `None` when the file has no producing action. */
  datatype RawAction = RawAction(
    commandPath: string,
    commandArguments: string,
    prerequisites: seq<Option<nat>>,
    canExecuteRemotely: bool,
    kind: ActionKind)

  datatype PchOptions = PchOptions(options: string, input: string, output: string)

  /** `ObjectGroup`: one FASTBuild `ObjectList`. `actionInputs` is the
      `ActionInputs` dictionary in insertion order, keyed by action index;
      `compilerKey` is the raw command path under which the compiler is cached. */
  datatype ObjectGroup = ObjectGroup(
    matchHash: string,
    compilerArguments: string,
    outputPath: string,
    outputExt: string,
    localOnly: bool,
    pch: Option<PchOptions>,
    compiler: Tool,
    compilerKey: string,
    actionInputs: seq<(nat, string)>)

  datatype NodeBody =
    | ObjectList(group: ObjectGroup)
    /** `LinkAction`; `importLibrary` is `None` where the C# field is null. */
    | Library(arguments: string, linker: Tool, outputLibrary: string,
              importLibrary: Option<string>, inputs: seq<string>, localOnly: bool)
    /** An `ExecAction` that is not a `LinkAction`. */
    | Exec(arguments: string, linker: Tool)

  /** A node: its handle, `AliasIndex`, `Dependencies` (handles) and payload. */
  datatype Node = Node(handle: nat, aliasIndex: nat, dependencies: seq<nat>, body: NodeBody)

  /** `actionLinks`: action index to the node parsed from it. */
  type Store = map<nat, Node>

  function NodeType(b: NodeBody): string {
    match b
    case ObjectList(_) => "ObjG"
    case Library(_, _, _, _, _, _) => "DLL"
    case Exec(_, _) => "Exec"
  }

  /** `FastbuildAction.Alias`: `NodeType-AliasIndex`. */
  function Alias(n: Node): string {
    NodeType(n.body) + "-" + NatToString(n.aliasIndex)
  }

  /** `ObjectGroup.ActionOutputs`: the object file expected for every input. */
  function ActionOutputs(g: ObjectGroup): (r: seq<string>)
    ensures |r| == |g.actionInputs|
  {
    seq(|g.actionInputs|, k requires 0 <= k < |g.actionInputs| =>
      g.outputPath + Paths.FileNameWithoutExtension(g.actionInputs[k].1) + g.outputExt)
  }

  /** Two nodes with the same alias have the same node type and alias index. */
  lemma AliasInjective(m: Node, n: Node)
    requires Alias(m) == Alias(n)
    ensures NodeType(m.body) == NodeType(n.body)
    ensures m.aliasIndex == n.aliasIndex
  {
    var tm, tn := NodeType(m.body), NodeType(n.body);
    assert Alias(m)[0] == tm[0];
    assert Alias(n)[0] == tn[0];
    assert tm == tn;
    assert Alias(m)[|tm| + 1..] == NatToString(m.aliasIndex);
    assert Alias(n)[|tn| + 1..] == NatToString(n.aliasIndex);
    NatToStringInjective(m.aliasIndex, n.aliasIndex);
  }

  /** Every key maps to the node with that handle. */
  ghost predicate WellKeyed(store: Store) {
    forall h :: h in store ==> store[h].handle == h
  }
}
