/** Which nodes are GPU nodes, the preflight check over them, and the node-event filter. */
module Detection {
  import opened Text
  import opened Values

  datatype Node = Node(name: string, labels: map<string, string>, osImage: string)

  const INSTANCE_TYPE_LABEL := "node.kubernetes.io/instance-type"
  const INSTANCE_TYPE_PREFIXES: seq<string> := ["g4dn", "g6", "g2-", "Standard_NC"]

  predicate IsGpuNode(labels: map<string, string>) {
    INSTANCE_TYPE_LABEL in labels && labels[INSTANCE_TYPE_LABEL] != "" &&
    exists i :: 0 <= i < |INSTANCE_TYPE_PREFIXES| && INSTANCE_TYPE_PREFIXES[i] <= labels[INSTANCE_TYPE_LABEL]
  }

  /** detectNodeOS; None when the OS is not supported. */
  function DetectOs(osImage: string): Option<OsType> {
    var img := Lower(osImage);
    if Contains(img, "garden linux") then Some(GardenLinux)
    else if Contains(img, "ubuntu") then Some(Ubuntu)
    else None
  }

  /** The reason texts by format and arguments; the last one lists name and OS image per node. */
  datatype Reason =
    | NoGpuNodes
    | UnsupportedOs(nodes: seq<(string, string)>)
    | MixedOs

  datatype Preflight = Proceed(os: OsType) | Warn(reason: Reason) | Stop(reason: Reason)

  // ---- specification: the check reads a node list only through this view ----

  /** Name and OS image of the GPU nodes, in list order. */
  function GpuView(nodes: seq<Node>): (v: seq<(string, string)>)
  {
    if nodes == [] then []
    else (if IsGpuNode(nodes[0].labels) then [(nodes[0].name, nodes[0].osImage)] else []) + GpuView(nodes[1..])
  }

  function Unsupported(view: seq<(string, string)>): seq<(string, string)> {
    if view == [] then []
    else (if DetectOs(view[0].1).None? then [view[0]] else []) + Unsupported(view[1..])
  }

  predicate Runs(view: seq<(string, string)>, os: OsType) {
    exists i :: 0 <= i < |view| && DetectOs(view[i].1) == Some(os)
  }

  function Judge(view: seq<(string, string)>): Preflight {
    if view == [] then Warn(NoGpuNodes)
    else if Unsupported(view) != [] then Stop(UnsupportedOs(Unsupported(view)))
    else if Runs(view, GardenLinux) && Runs(view, Ubuntu) then Stop(MixedOs)
    else if Runs(view, GardenLinux) then Proceed(GardenLinux)
    else Proceed(Ubuntu)
  }

  /** RunPreflight on the listed nodes. */
  function PreflightOf(nodes: seq<Node>): Preflight { Judge(GpuView(nodes)) }

  lemma {:induction false} GpuViewConcat(a: seq<Node>, b: seq<Node>)
    ensures GpuView(a + b) == GpuView(a) + GpuView(b)
  {
    if a == [] {
      assert a + b == b;
    } else {
      assert (a + b)[1..] == a[1..] + b;
      GpuViewConcat(a[1..], b);
    }
  }

  lemma {:induction false} UnsupportedConcat(a: seq<(string, string)>, b: seq<(string, string)>)
    ensures Unsupported(a + b) == Unsupported(a) + Unsupported(b)
  {
    if a == [] {
      assert a + b == b;
    } else {
      assert (a + b)[1..] == a[1..] + b;
      UnsupportedConcat(a[1..], b);
    }
  }

  lemma {:induction false} GpuViewMembers(nodes: seq<Node>)
    ensures forall p :: p in GpuView(nodes) <==>
              exists i :: 0 <= i < |nodes| && IsGpuNode(nodes[i].labels) && p == (nodes[i].name, nodes[i].osImage)
  {
    if nodes != [] {
      GpuViewMembers(nodes[1..]);
      assert forall i | 1 <= i < |nodes| :: nodes[i] == nodes[1..][i - 1];
    }
  }

  lemma {:induction false} UnsupportedMembers(view: seq<(string, string)>)
    ensures forall p :: p in Unsupported(view) <==> p in view && DetectOs(p.1).None?
  {
    if view != [] {
      UnsupportedMembers(view[1..]);
    }
  }

  // ---- the code's loops ----

  /** The GPU nodes in list order. */
  function GpuNodes(nodes: seq<Node>): seq<Node> {
    if nodes == [] then []
    else GpuNodes(nodes[..|nodes| - 1]) + if IsGpuNode(nodes[|nodes| - 1].labels) then [nodes[|nodes| - 1]] else []
  }

  lemma {:induction false} GpuNodesAreTheView(nodes: seq<Node>)
    ensures GpuView(GpuNodes(nodes)) == GpuView(nodes)
    ensures forall n :: n in GpuNodes(nodes) <==> n in nodes && IsGpuNode(n.labels)
  {
    hide IsGpuNode;
    if nodes != [] {
      var init, last := nodes[..|nodes| - 1], nodes[|nodes| - 1];
      assert nodes == init + [last];
      GpuNodesAreTheView(init);
      GpuViewConcat(init, [last]);
      GpuViewConcat(GpuNodes(init), if IsGpuNode(last.labels) then [last] else []);
    }
  }

  /** filterGPUNodes. */
  method FilterGpuNodes(nodes: seq<Node>) returns (gpu: seq<Node>)
    ensures gpu == GpuNodes(nodes)
    ensures GpuView(gpu) == GpuView(nodes) && forall n | n in gpu :: IsGpuNode(n.labels)
  {
    gpu := [];
    for i := 0 to |nodes|
      invariant gpu == GpuNodes(nodes[..i])
    {
      assert nodes[..i + 1][..i] == nodes[..i];
      if IsGpuNode(nodes[i].labels) { gpu := gpu + [nodes[i]]; }
    }
    assert nodes[..|nodes|] == nodes;
    GpuNodesAreTheView(nodes);
  }

  lemma {:induction false} GpuViewOfGpuNodes(gpu: seq<Node>)
    requires forall n | n in gpu :: IsGpuNode(n.labels)
    ensures |GpuView(gpu)| == |gpu|
    ensures forall i | 0 <= i < |gpu| :: GpuView(gpu)[i] == (gpu[i].name, gpu[i].osImage)
  {
    if gpu != [] {
      GpuViewOfGpuNodes(gpu[1..]);
    }
  }

  /** RunPreflight's loop over the GPU nodes. */
  method CollectOs(gpu: seq<Node>) returns (unsupported: seq<(string, string)>, osTypes: set<OsType>)
    requires forall n | n in gpu :: IsGpuNode(n.labels)
    ensures unsupported == Unsupported(GpuView(gpu))
    ensures forall os :: os in osTypes <==> Runs(GpuView(gpu), os)
  {
    hide DetectOs, IsGpuNode;
    ghost var view := GpuView(gpu);
    GpuViewOfGpuNodes(gpu);
    unsupported, osTypes := [], {};
    for i := 0 to |gpu|
      invariant unsupported == Unsupported(view[..i])
      invariant forall os :: os in osTypes <==> Runs(view[..i], os)
    {
      assert view[..i + 1] == view[..i] + [view[i]];
      UnsupportedConcat(view[..i], [view[i]]);
      forall os ensures Runs(view[..i + 1], os) <==> Runs(view[..i], os) || DetectOs(view[i].1) == Some(os) {
        RunsConcat(view[..i], view[i], os);
      }
      var os := DetectOs(gpu[i].osImage);
      if os.None? {
        unsupported := unsupported + [(gpu[i].name, gpu[i].osImage)];
      } else {
        osTypes := osTypes + {os.value};
      }
    }
    assert view[..|gpu|] == view;
  }

  lemma RunsConcat(view: seq<(string, string)>, p: (string, string), os: OsType)
    ensures Runs(view + [p], os) <==> Runs(view, os) || DetectOs(p.1) == Some(os)
  {
    if Runs(view, os) {
      var i :| 0 <= i < |view| && DetectOs(view[i].1) == Some(os);
      assert (view + [p])[i] == view[i];
    }
    assert (view + [p])[|view|] == p;
  }

  lemma SupportedMeansSome(view: seq<(string, string)>)
    requires view != [] && Unsupported(view) == []
    ensures Runs(view, GardenLinux) || Runs(view, Ubuntu)
  {
    UnsupportedMembers(view);
    assert view[0] in view;
  }

  /** RunPreflight; None is the error of a failed node list. */
  method RunPreflight(listed: Option<seq<Node>>) returns (r: Option<Preflight>)
    ensures r == if listed.None? then None else Some(PreflightOf(listed.value))
  {
    hide DetectOs, IsGpuNode, Runs;
    if listed.None? { return None; }
    var gpu := FilterGpuNodes(listed.value);
    GpuViewOfGpuNodes(gpu);
    if |gpu| == 0 { return Some(Warn(NoGpuNodes)); }
    var unsupported, osTypes := CollectOs(gpu);
    if |unsupported| > 0 { return Some(Stop(UnsupportedOs(unsupported))); }
    SupportedMeansSome(GpuView(gpu));
    SetSize(osTypes);
    if |osTypes| > 1 { return Some(Stop(MixedOs)); }
    var detected :| detected in osTypes;
    assert detected.GardenLinux? || detected.Ubuntu?;
    return Some(Proceed(detected));
  }

  lemma SetSize(s: set<OsType>)
    ensures |s| > 1 <==> GardenLinux in s && Ubuntu in s
  {
    forall os | os in s ensures os == GardenLinux || os == Ubuntu {
      match os case GardenLinux => case Ubuntu =>
    }
    if GardenLinux in s && Ubuntu in s {
      assert s == {GardenLinux} + {Ubuntu};
    } else if GardenLinux in s {
      assert s == {GardenLinux};
    } else if Ubuntu in s {
      assert s == {Ubuntu};
    } else {
      assert s == {};
    }
  }

  // ---- what the outcome means ----

  /** A node is a GPU node by its instance type. */
  ghost predicate GpuTyped(labels: map<string, string>) {
    "node.kubernetes.io/instance-type" in labels
    && var t := labels["node.kubernetes.io/instance-type"];
       "g4dn" <= t || "g6" <= t || "g2-" <= t || "Standard_NC" <= t
  }

  lemma IsGpuNodeMeans(labels: map<string, string>)
    ensures IsGpuNode(labels) <==> GpuTyped(labels)
  {
    if GpuTyped(labels) {
      var t := labels[INSTANCE_TYPE_LABEL];
      assert INSTANCE_TYPE_PREFIXES[0] == "g4dn" && INSTANCE_TYPE_PREFIXES[1] == "g6";
      assert INSTANCE_TYPE_PREFIXES[2] == "g2-" && INSTANCE_TYPE_PREFIXES[3] == "Standard_NC";
    }
  }

  /** A character is the given lower-case letter in some casing; Unicode adds two that lower-case to ASCII. */
  predicate CaseOf(c: char, l: char) {
    || c == l
    || ('a' <= l <= 'z' && c as int + 32 == l as int)
    || (l == 'i' && c == '\U{130}') || (l == 'k' && c == '\U{212A}')
  }

  ghost predicate Casing(w: string, word: string) {
    |w| == |word| && forall i | 0 <= i < |w| :: CaseOf(w[i], word[i])
  }

  ghost predicate OccursAt(word: string, img: string, i: int) {
    0 <= i <= |img| - |word| && Casing(img[i..i + |word|], word)
  }

  ghost predicate Occurs(word: string, img: string) { exists i :: OccursAt(word, img, i) }

  /** Which system an OS image name shows. */
  ghost predicate Shows(img: string, os: OsType) {
    match os
    case GardenLinux => Occurs("garden linux", img)
    case Ubuntu => Occurs("ubuntu", img) && !Occurs("garden linux", img)
  }

  predicate LowerWord(word: string) { forall i | 0 <= i < |word| :: !('A' <= word[i] <= 'Z') && word[i] < '\U{7f}' }

  lemma LowerMeans(w: string, word: string)
    requires LowerWord(word)
    ensures Lower(w) == word <==> Casing(w, word)
  {
    forall i | 0 <= i < |w| && i < |word| ensures LowerChar(w[i]) == word[i] <==> CaseOf(w[i], word[i]) {}
    if Casing(w, word) {
      assert Lower(w) == word;
    }
    if Lower(w) == word {
      forall i | 0 <= i < |w| ensures CaseOf(w[i], word[i]) {
        assert Lower(w)[i] == LowerChar(w[i]);
      }
    }
  }

  /** Searching the lower-cased text finds a word in any casing. */
  lemma ContainsMeans(img: string, word: string)
    requires LowerWord(word)
    ensures Contains(Lower(img), word) <==> Occurs(word, img)
  {
    var low := Lower(img);
    forall i | 0 <= i <= |img| ensures word <= low[i..] <==> OccursAt(word, img, i) {
      if i <= |img| - |word| {
        LowerMeans(img[i..i + |word|], word);
        assert low[i..][..|word|] == Lower(img[i..i + |word|]);
      }
    }
    assert forall i | OccursAt(word, img, i) :: 0 <= i <= |img| && word <= low[i..];
  }

  /** The system detected is the one the image name shows, for all names and casings. */
  lemma DetectMeans(img: string)
    ensures forall os :: DetectOs(img) == Some(os) <==> Shows(img, os)
    ensures DetectOs(img).None? <==> !Occurs("garden linux", img) && !Occurs("ubuntu", img)
  {
    hide Occurs, Contains, Lower;
    ContainsMeans(img, "garden linux");
    ContainsMeans(img, "ubuntu");
  }

  lemma WordOccurs(a: string, w: string, b: string, word: string)
    requires Casing(w, word)
    ensures Occurs(word, a + w + b)
  {
    assert (a + w + b)[|a|..|a| + |word|] == w;
    assert OccursAt(word, a + w + b, |a|);
  }

  /** In particular when the name of the system stands anywhere in the text. */
  lemma DetectsAnywhere(a: string, w: string, b: string)
    ensures Casing(w, "garden linux") ==> DetectOs(a + w + b) == Some(GardenLinux)
    ensures Casing(w, "ubuntu") && !Occurs("garden linux", a + w + b) ==> DetectOs(a + w + b) == Some(Ubuntu)
  {
    DetectMeans(a + w + b);
    hide Occurs, Casing, DetectOs;
    if Casing(w, "garden linux") { WordOccurs(a, w, b, "garden linux"); }
    if Casing(w, "ubuntu") { WordOccurs(a, w, b, "ubuntu"); }
    assert Shows(a + w + b, GardenLinux) <==> Occurs("garden linux", a + w + b);
  }

  ghost predicate AllGpuNodesRun(nodes: seq<Node>, os: OsType) {
    forall n | n in nodes && GpuTyped(n.labels) :: Shows(n.osImage, os)
  }

  ghost predicate HasGpuNode(nodes: seq<Node>) {
    exists n :: n in nodes && GpuTyped(n.labels)
  }

  lemma JudgeMeans(view: seq<(string, string)>)
    ensures Judge(view).Warn? <==> view == []
    ensures forall os :: Judge(view) == Proceed(os) <==> view != [] && forall p | p in view :: DetectOs(p.1) == Some(os)
  {
    hide DetectOs;
    UnsupportedMembers(view);
    if view != [] {
      assert view[0] in view;
      if Unsupported(view) != [] {
        assert Unsupported(view)[0] in Unsupported(view);
      }
    }
    forall os ensures Judge(view) == Proceed(os) <==> view != [] && forall p | p in view :: DetectOs(p.1) == Some(os) {
      if Judge(view) == Proceed(os) {
        forall p | p in view ensures DetectOs(p.1) == Some(os) {
          var i :| 0 <= i < |view| && view[i] == p;
          var found := DetectOs(view[i].1).value;
          assert found.GardenLinux? || found.Ubuntu?;
          assert Runs(view, found);
        }
      }
      if view != [] && forall p | p in view :: DetectOs(p.1) == Some(os) {
        assert Runs(view, os) && (os.GardenLinux? || os.Ubuntu?);
      }
    }
  }

  /** The two ways to tell GPU nodes and systems agree. */
  lemma SameTests()
    ensures forall labels :: IsGpuNode(labels) <==> GpuTyped(labels)
    ensures forall img, os :: DetectOs(img) == Some(os) <==> Shows(img, os)
  {
    hide IsGpuNode, GpuTyped, DetectOs, Shows;
    forall labels ensures IsGpuNode(labels) <==> GpuTyped(labels) { IsGpuNodeMeans(labels); }
    forall img, os ensures DetectOs(img) == Some(os) <==> Shows(img, os) { DetectMeans(img); }
  }

  lemma ViewSpeaksForNodes(nodes: seq<Node>, os: OsType)
    ensures HasGpuNode(nodes) <==> GpuView(nodes) != []
    ensures AllGpuNodesRun(nodes, os) <==> forall p | p in GpuView(nodes) :: DetectOs(p.1) == Some(os)
  {
    hide DetectOs, IsGpuNode, GpuTyped, Shows;
    SameTests();
    var view := GpuView(nodes);
    GpuViewMembers(nodes);
    if HasGpuNode(nodes) {
      var n :| n in nodes && IsGpuNode(n.labels);
      assert (n.name, n.osImage) in view;
    }
    if view != [] {
      assert view[0] in view;
    }
    if forall p | p in view :: DetectOs(p.1) == Some(os) {
      forall n | n in nodes && IsGpuNode(n.labels) ensures DetectOs(n.osImage) == Some(os) {
        assert (n.name, n.osImage) in view;
      }
    }
  }

  /** Warn means no GPU node, Proceed(os) that there are some and all run os, Stop everything else. */
  lemma PreflightMeans(nodes: seq<Node>)
    ensures PreflightOf(nodes).Warn? <==> !HasGpuNode(nodes)
    ensures forall os :: PreflightOf(nodes) == Proceed(os) <==> HasGpuNode(nodes) && AllGpuNodesRun(nodes, os)
    ensures PreflightOf(nodes).Stop? <==>
              HasGpuNode(nodes) && !AllGpuNodesRun(nodes, GardenLinux) && !AllGpuNodesRun(nodes, Ubuntu)
  {
    hide Judge, HasGpuNode, AllGpuNodesRun;
    JudgeMeans(GpuView(nodes));
    forall os ensures AllGpuNodesRun(nodes, os) <==> forall p | p in GpuView(nodes) :: DetectOs(p.1) == Some(os) {
      ViewSpeaksForNodes(nodes, os);
    }
    ViewSpeaksForNodes(nodes, GardenLinux);
    var r := Judge(GpuView(nodes));
    if r.Proceed? { assert r.os.GardenLinux? || r.os.Ubuntu?; }
  }

  /** The GPU node shows neither system. */
  ghost predicate Unknown(n: Node) { GpuTyped(n.labels) && !Occurs("garden linux", n.osImage) && !Occurs("ubuntu", n.osImage) }

  /** A stop names the GPU nodes that show neither system, or else says that the systems are mixed. */
  lemma StopSays(nodes: seq<Node>)
    requires PreflightOf(nodes).Stop?
    ensures match PreflightOf(nodes).reason
            case MixedOs => forall n | n in nodes :: !Unknown(n)
            case UnsupportedOs(named) =>
              named != [] && forall p :: p in named <==> exists n :: n in nodes && Unknown(n) && p == (n.name, n.osImage)
            case NoGpuNodes => false
  {
    hide GpuTyped, IsGpuNode, DetectOs, Occurs, Shows;
    SameTests();
    forall n: Node ensures Unknown(n) <==> IsGpuNode(n.labels) && DetectOs(n.osImage).None? { DetectMeans(n.osImage); }
    GpuViewMembers(nodes);
    UnsupportedMembers(GpuView(nodes));
    forall n | n in nodes && Unknown(n) ensures (n.name, n.osImage) in Unsupported(GpuView(nodes)) {
      assert (n.name, n.osImage) in GpuView(nodes);
    }
  }

  /** Outcome and OS depend on which GPU nodes there are, not on their order or on other nodes. */
  lemma PreflightIgnoresOrder(a: seq<Node>, b: seq<Node>)
    requires forall n: Node | GpuTyped(n.labels) :: n in a <==> n in b
    ensures PreflightOf(a).Warn? == PreflightOf(b).Warn? && PreflightOf(a).Stop? == PreflightOf(b).Stop?
    ensures PreflightOf(a).Proceed? ==> PreflightOf(a) == PreflightOf(b)
  {
    PreflightMeans(a);
    PreflightMeans(b);
    assert HasGpuNode(a) <==> HasGpuNode(b);
    assert forall os :: AllGpuNodesRun(a, os) <==> AllGpuNodesRun(b, os);
  }

  // ---- the node-event filter ----

  /** A change to the node list; positions leave the order of all other nodes as it is. */
  datatype NodeEvent =
    | Created(at: nat, node: Node)
    | Deleted(at: nat)
    | Updated(at: nat, labels: map<string, string>, osImage: string)

  predicate Possible(nodes: seq<Node>, e: NodeEvent) {
    match e
    case Created(at, _) => at <= |nodes|
    case _ => e.at < |nodes|
  }

  function AfterNodeEvent(nodes: seq<Node>, e: NodeEvent): seq<Node> {
    if !Possible(nodes, e) then nodes
    else match e
      case Created(at, node) => nodes[..at] + [node] + nodes[at..]
      case Deleted(at) => nodes[..at] + nodes[at + 1..]
      case Updated(at, labels, osImage) => nodes[at := nodes[at].(labels := labels, osImage := osImage)]
  }

  /** gpuNodeChangedPredicate. */
  predicate Fires(nodes: seq<Node>, e: NodeEvent)
    requires Possible(nodes, e)
  {
    match e
    case Created(_, node) => IsGpuNode(node.labels)
    case Deleted(at) => IsGpuNode(nodes[at].labels)
    case Updated(at, labels, osImage) =>
      var wasGpu, isGpu := IsGpuNode(nodes[at].labels), IsGpuNode(labels);
      if !wasGpu && !isGpu then false
      else if wasGpu != isGpu then true
      else nodes[at].osImage != osImage
  }

  lemma SameMiddle<T>(p: seq<T>, x: seq<T>, y: seq<T>, s: seq<T>)
    ensures p + (x + s) == p + (y + s) <==> x == y
  {
    if p + (x + s) == p + (y + s) {
      SamePrefix(p, x + s, y + s);
      assert |x| == |y|;
      assert x == (x + s)[..|x|] && y == (y + s)[..|y|];
    }
  }

  lemma ViewOfOne(n: Node)
    ensures GpuView([n]) == if IsGpuNode(n.labels) then [(n.name, n.osImage)] else []
  {
    assert [n][1..] == [];
    hide IsGpuNode;
  }

  lemma CreationShows(nodes: seq<Node>, at: nat, node: Node)
    requires at <= |nodes|
    ensures GpuView(nodes[..at] + [node] + nodes[at..]) == GpuView(nodes) <==> !IsGpuNode(node.labels)
  {
    hide IsGpuNode, GpuView;
    assert nodes == nodes[..at] + nodes[at..];
    assert nodes[..at] + [node] + nodes[at..] == nodes[..at] + ([node] + nodes[at..]);
    GpuViewConcat(nodes[..at], nodes[at..]);
    GpuViewConcat(nodes[..at], [node] + nodes[at..]);
    GpuViewConcat([node], nodes[at..]);
    ViewOfOne(node);
    var p, s := GpuView(nodes[..at]), GpuView(nodes[at..]);
    SameMiddle(p, GpuView([node]), [], s);
    assert [] + s == s;
  }

  lemma ReplacementShows(nodes: seq<Node>, at: nat, n: Node)
    requires at < |nodes|
    ensures GpuView(nodes[at := n]) == GpuView(nodes) <==> GpuView([n]) == GpuView([nodes[at]])
  {
    hide IsGpuNode, GpuView;
    var pre, post := nodes[..at], nodes[at + 1..];
    assert nodes == pre + ([nodes[at]] + post) && nodes[at := n] == pre + ([n] + post);
    GpuViewConcat(pre, [nodes[at]] + post);
    GpuViewConcat([nodes[at]], post);
    GpuViewConcat(pre, [n] + post);
    GpuViewConcat([n], post);
    SameMiddle(GpuView(pre), GpuView([nodes[at]]), GpuView([n]), GpuView(post));
  }

  /** The filter fires exactly if the event changes what preflight sees of the nodes. */
  lemma FiresExactly(nodes: seq<Node>, e: NodeEvent)
    requires Possible(nodes, e)
    ensures Fires(nodes, e) <==> GpuView(AfterNodeEvent(nodes, e)) != GpuView(nodes)
  {
    hide IsGpuNode, GpuView;
    match e
    case Created(at, node) => CreationShows(nodes, at, node);
    case Deleted(at) =>
      var rest := nodes[..at] + nodes[at + 1..];
      assert rest[..at] == nodes[..at] && rest[at..] == nodes[at + 1..];
      assert nodes == rest[..at] + [nodes[at]] + rest[at..];
      CreationShows(rest, at, nodes[at]);
    case Updated(at, labels, osImage) =>
      var n := nodes[at].(labels := labels, osImage := osImage);
      ReplacementShows(nodes, at, n);
      ViewOfOne(n);
      ViewOfOne(nodes[at]);
  }

  function AfterNodeEvents(nodes: seq<Node>, es: seq<NodeEvent>): seq<Node>
    decreases |es|
  {
    if es == [] then nodes else AfterNodeEvents(AfterNodeEvent(nodes, es[0]), es[1..])
  }

  predicate AllSilent(nodes: seq<Node>, es: seq<NodeEvent>)
    decreases |es|
  {
    es == [] || (Possible(nodes, es[0]) && !Fires(nodes, es[0]) && AllSilent(AfterNodeEvent(nodes, es[0]), es[1..]))
  }

  /** No sequence of events the filter rejects changes the preflight result, reason text included. */
  lemma {:induction false} SilentEventsKeepPreflight(nodes: seq<Node>, es: seq<NodeEvent>)
    requires AllSilent(nodes, es)
    ensures PreflightOf(AfterNodeEvents(nodes, es)) == PreflightOf(nodes)
    decreases |es|
  {
    if es != [] {
      FiresExactly(nodes, es[0]);
      SilentEventsKeepPreflight(AfterNodeEvent(nodes, es[0]), es[1..]);
    }
  }
}
