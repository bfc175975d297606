/** Directories as values: entries, link counts and the tree they form. */
module Tree {
  const DIRSIZ: nat := 14
  const ROOT: nat := 1

  datatype Kind = Free | Dir | File | Device

  /** A directory entry; inum 0 marks an empty one. */
  datatype Dirent = Dirent(inum: nat, name: string)

  datatype Node = Node(kind: Kind, nlink: int, ents: seq<Dirent>)

  type Nodes = map<nat, Node>

  /** The part of a path element that a directory entry keeps. */
  function Trunc(elem: string): (r: string)
    ensures r <= elem && |r| <= DIRSIZ && (|r| < DIRSIZ ==> r == elem)
  {
    if |elem| > DIRSIZ then elem[..DIRSIZ] else elem
  }

  /** dirlookup: the first entry in use with this name, or the number of entries. */
  function Find(ents: seq<Dirent>, name: string): (k: nat)
    ensures k <= |ents| && (k < |ents| ==> ents[k].inum != 0 && ents[k].name == name)
    ensures forall j :: 0 <= j < k ==> ents[j].inum == 0 || ents[j].name != name
  {
    if ents == [] || (ents[0].inum != 0 && ents[0].name == name) then 0 else 1 + Find(ents[1..], name)
  }

  /** Write an entry over an old one or at the end. */
  function SetEnt(ents: seq<Dirent>, k: nat, e: Dirent): seq<Dirent>
    requires k <= |ents|
  {
    if k < |ents| then ents[k := e] else ents + [e]
  }

  predicate LinkedDir(nodes: Nodes, d: nat) {
    d in nodes && nodes[d].kind.Dir? && nodes[d].nlink > 0
  }

  /** Entry k of a linked directory d, not its ".", names inode i. */
  predicate Names(nodes: Nodes, d: nat, k: nat, i: nat) {
    LinkedDir(nodes, d) && k < |nodes[d].ents| && nodes[d].ents[k].inum == i && nodes[d].ents[k].name != "."
  }

  ghost function Refs(nodes: Nodes, i: nat): set<(nat, nat)> {
    set d, k | d in nodes && 0 <= k < |nodes[d].ents| && Names(nodes, d, k, i) :: (d, k)
  }

  /** nlink is the number of entries other than "." in linked directories. */
  ghost predicate CountsOk(nodes: Nodes) {
    && 0 !in nodes
    && forall i :: i in nodes ==> nodes[i].nlink == |Refs(nodes, i)| && (nodes[i].kind.Free? ==> nodes[i].nlink == 0)
  }

  /** Dots first and only there, names short and distinct, targets in use. */
  ghost predicate EntriesOk(nodes: Nodes, d: nat)
    requires d in nodes
  {
    var e := nodes[d].ents;
    && |e| >= 2 && e[0] == Dirent(d, ".") && e[1].name == ".." && LinkedDir(nodes, e[1].inum)
    && (forall k :: 2 <= k < |e| && e[k].inum != 0 ==>
          e[k].name != "." && e[k].name != ".." && 0 < |e[k].name| <= DIRSIZ && e[k].inum in nodes
          && !nodes[e[k].inum].kind.Free?)
    && (forall j, k :: 0 <= j < k < |e| && e[j].inum != 0 && e[k].inum != 0 ==> e[j].name != e[k].name)
  }

  ghost predicate DirsOk(nodes: Nodes) {
    forall d :: LinkedDir(nodes, d) ==> EntriesOk(nodes, d)
  }

  function DotDot(nodes: Nodes, d: nat): nat {
    if d in nodes && |nodes[d].ents| >= 2 then nodes[d].ents[1].inum else 0
  }

  /** A linked directory other than the root is named by an entry of the directory its
      ".." names, which is one step nearer to the root. */
  ghost predicate Placed(nodes: Nodes, spot: map<nat, (nat, nat)>, depth: map<nat, nat>, d: nat)
  {
    && d in spot && spot[d].1 >= 2 && Names(nodes, spot[d].0, spot[d].1, d)
    && DotDot(nodes, d) == spot[d].0 && d in depth && spot[d].0 in depth && depth[d] == depth[spot[d].0] + 1
  }

  /** ... and by no other entry. */
  ghost predicate TreeOk(nodes: Nodes, spot: map<nat, (nat, nat)>, depth: map<nat, nat>) {
    && LinkedDir(nodes, ROOT) && DotDot(nodes, ROOT) == ROOT && ROOT in depth
    && (forall d :: LinkedDir(nodes, d) && d != ROOT ==> Placed(nodes, spot, depth, d))
    && (forall d: nat, p: nat, k: nat :: LinkedDir(nodes, d) && Names(nodes, p, k, d) && k >= 2 ==>
          d in spot && d != ROOT && spot[d] == (p, k))
  }

  ghost predicate TreeInv(nodes: Nodes, spot: map<nat, (nat, nat)>, depth: map<nat, nat>) {
    CountsOk(nodes) && DirsOk(nodes) && TreeOk(nodes, spot, depth)
  }

  // ---------------------------------------------------------- changes to the tree

  /** A free place for an entry. */
  predicate Vacant(nodes: Nodes, dp: nat, k: nat) {
    dp in nodes && 2 <= k <= |nodes[dp].ents| && (k < |nodes[dp].ents| ==> nodes[dp].ents[k].inum == 0)
  }

  function WithEnt(x: Node, k: nat, e: Dirent): Node
    requires k <= |x.ents|
  {
    x.(ents := SetEnt(x.ents, k, e))
  }

  /** One more name for a file. */
  function LinkFile(nodes: Nodes, dp: nat, k: nat, ip: nat, name: string): Nodes
    requires dp in nodes && ip in nodes && dp != ip && k <= |nodes[dp].ents|
  {
    nodes[ip := nodes[ip].(nlink := nodes[ip].nlink + 1)][dp := WithEnt(nodes[dp], k, Dirent(ip, name))]
  }

  /** The name of a new directory, whose ".." is a link to its parent. */
  function LinkDir(nodes: Nodes, dp: nat, k: nat, ip: nat, name: string): Nodes
    requires dp in nodes && ip in nodes && dp != ip && k <= |nodes[dp].ents|
  {
    nodes[ip := nodes[ip].(nlink := nodes[ip].nlink + 1)]
         [dp := WithEnt(nodes[dp].(nlink := nodes[dp].nlink + 1), k, Dirent(ip, name))]
  }

  const EMPTY: Dirent := Dirent(0, "")

  function UnlinkFile(nodes: Nodes, dp: nat, k: nat, ip: nat): Nodes
    requires dp in nodes && ip in nodes && dp != ip && k < |nodes[dp].ents|
  {
    nodes[dp := WithEnt(nodes[dp], k, EMPTY)][ip := nodes[ip].(nlink := nodes[ip].nlink - 1)]
  }

  function UnlinkDir(nodes: Nodes, dp: nat, k: nat, ip: nat): Nodes
    requires dp in nodes && ip in nodes && dp != ip && k < |nodes[dp].ents|
  {
    nodes[dp := WithEnt(nodes[dp].(nlink := nodes[dp].nlink - 1), k, EMPTY)]
         [ip := nodes[ip].(nlink := nodes[ip].nlink - 1)]
  }

  // ---------------------------------------------------------------- link counts

  ghost predicate GoodName(name: string) { name != "." && name != ".." && 0 < |name| <= DIRSIZ }

  lemma LinkFileRefs(nodes: Nodes, dp: nat, k: nat, ip: nat, name: string, i: nat)
    requires LinkedDir(nodes, dp) && Vacant(nodes, dp, k) && ip in nodes && ip != dp && !nodes[ip].kind.Dir?
    requires name != "." && i != 0
    ensures (dp, k) !in Refs(nodes, i)
    ensures i == ip ==> Refs(LinkFile(nodes, dp, k, ip, name), i) == Refs(nodes, i) + {(dp, k)}
    ensures i != ip ==> Refs(LinkFile(nodes, dp, k, ip, name), i) == Refs(nodes, i)
  {
    var n := LinkFile(nodes, dp, k, ip, name);
    forall d, j: nat | d in n && j < |n[d].ents|
      ensures Names(n, d, j, i) <==>
                (d in nodes && j < |nodes[d].ents| && Names(nodes, d, j, i)) || (d == dp && j == k && i == ip)
    {
    }
    hide Names;
  }

  lemma LinkDirRefs(nodes: Nodes, dp: nat, k: nat, ip: nat, name: string, i: nat)
    requires LinkedDir(nodes, dp) && Vacant(nodes, dp, k) && ip in nodes && ip != dp && name != "." && i != 0
    requires nodes[ip] == Node(Dir, 0, [Dirent(ip, "."), Dirent(dp, "..")])
    ensures (dp, k) !in Refs(nodes, i) && (ip, 1) !in Refs(nodes, i)
    ensures i == ip ==> Refs(LinkDir(nodes, dp, k, ip, name), i) == Refs(nodes, i) + {(dp, k)}
    ensures i == dp ==> Refs(LinkDir(nodes, dp, k, ip, name), i) == Refs(nodes, i) + {(ip, 1)}
    ensures i != ip && i != dp ==> Refs(LinkDir(nodes, dp, k, ip, name), i) == Refs(nodes, i)
  {
    var n := LinkDir(nodes, dp, k, ip, name);
    forall d, j: nat | d in n && j < |n[d].ents|
      ensures Names(n, d, j, i) <==>
                (d in nodes && j < |nodes[d].ents| && Names(nodes, d, j, i)) || (d == dp && j == k && i == ip)
                || (d == ip && j == 1 && i == dp)
    {
    }
    hide Names;
  }

  lemma UnlinkFileRefs(nodes: Nodes, dp: nat, k: nat, ip: nat, i: nat)
    requires Names(nodes, dp, k, ip) && ip in nodes && ip != dp && !nodes[ip].kind.Dir? && i != 0 && ip != 0
    ensures (dp, k) in Refs(nodes, ip)
    ensures i == ip ==> Refs(UnlinkFile(nodes, dp, k, ip), i) == Refs(nodes, i) - {(dp, k)}
    ensures i != ip ==> Refs(UnlinkFile(nodes, dp, k, ip), i) == Refs(nodes, i)
  {
    var n := UnlinkFile(nodes, dp, k, ip);
    forall d, j: nat | d in n && j < |n[d].ents|
      ensures Names(n, d, j, i) <==> Names(nodes, d, j, i) && !(d == dp && j == k && i == ip)
    {
    }
    hide Names;
  }

  /** A directory with one link and nothing but its dots is removed. */
  lemma UnlinkDirRefs(nodes: Nodes, dp: nat, k: nat, ip: nat, i: nat)
    requires Names(nodes, dp, k, ip) && LinkedDir(nodes, ip) && ip != dp && ip != 0 && i != 0 && nodes[ip].nlink == 1
    requires nodes[dp].nlink > 1
    requires |nodes[ip].ents| >= 2 && nodes[ip].ents[0].name == "." && nodes[ip].ents[1].inum == dp
    requires nodes[ip].ents[1].name != "."
    requires forall j :: 2 <= j < |nodes[ip].ents| ==> nodes[ip].ents[j].inum == 0
    ensures (dp, k) in Refs(nodes, ip) && (ip, 1) in Refs(nodes, dp)
    ensures i == ip ==> Refs(UnlinkDir(nodes, dp, k, ip), i) == Refs(nodes, i) - {(dp, k)}
    ensures i == dp ==> Refs(UnlinkDir(nodes, dp, k, ip), i) == Refs(nodes, i) - {(ip, 1)}
    ensures i != ip && i != dp ==> Refs(UnlinkDir(nodes, dp, k, ip), i) == Refs(nodes, i)
  {
    var n := UnlinkDir(nodes, dp, k, ip);
    forall d, j: nat | d in n && j < |n[d].ents|
      ensures Names(n, d, j, i) <==>
                Names(nodes, d, j, i) && !(d == dp && j == k && i == ip) && !(d == ip && j == 1 && i == dp)
    {
    }
    hide Names;
  }

  /** A node without links may change at will as long as it gets none. */
  lemma UnlinkedRefs(nodes: Nodes, ip: nat, x: Node, i: nat)
    requires ip in nodes && nodes[ip].nlink == 0 && x.nlink == 0
    ensures Refs(nodes[ip := x], i) == Refs(nodes, i)
  {
    var n := nodes[ip := x];
    forall d, j: nat | d in n && j < |n[d].ents|
      ensures Names(n, d, j, i) <==> d in nodes && j < |nodes[d].ents| && Names(nodes, d, j, i)
    {
    }
    forall d, j: nat | d in nodes && j < |nodes[d].ents| && Names(nodes, d, j, i)
      ensures d in n && j < |n[d].ents|
    {
    }
    hide Names;
  }

  lemma LinkFileCounts(nodes: Nodes, dp: nat, k: nat, ip: nat, name: string)
    requires CountsOk(nodes) && LinkedDir(nodes, dp) && Vacant(nodes, dp, k) && ip in nodes && ip != dp && name != "."
    requires !nodes[ip].kind.Dir? && !nodes[ip].kind.Free?
    ensures CountsOk(LinkFile(nodes, dp, k, ip, name)) && 0 !in nodes
  {
    hide Refs;
    var n := LinkFile(nodes, dp, k, ip, name);
    forall i | i in n
      ensures n[i].nlink == |Refs(n, i)|
    {
      LinkFileRefs(nodes, dp, k, ip, name, i);
    }
  }

  lemma LinkDirCounts(nodes: Nodes, dp: nat, k: nat, ip: nat, name: string)
    requires CountsOk(nodes) && LinkedDir(nodes, dp) && Vacant(nodes, dp, k) && ip in nodes && ip != dp && name != "."
    requires nodes[ip] == Node(Dir, 0, [Dirent(ip, "."), Dirent(dp, "..")])
    ensures CountsOk(LinkDir(nodes, dp, k, ip, name)) && 0 !in nodes
  {
    hide Refs;
    var n := LinkDir(nodes, dp, k, ip, name);
    forall i | i in n
      ensures n[i].nlink == |Refs(n, i)|
    {
      LinkDirRefs(nodes, dp, k, ip, name, i);
    }
  }

  lemma UnlinkFileCounts(nodes: Nodes, dp: nat, k: nat, ip: nat)
    requires CountsOk(nodes) && Names(nodes, dp, k, ip) && ip in nodes && ip != dp && !nodes[ip].kind.Dir?
    ensures nodes[ip].nlink > 0 && CountsOk(UnlinkFile(nodes, dp, k, ip)) && 0 !in nodes
  {
    hide Refs;
    var n := UnlinkFile(nodes, dp, k, ip);
    UnlinkFileRefs(nodes, dp, k, ip, ip);
    assert nodes[ip].nlink > 0;
    forall i | i in n
      ensures n[i].nlink == |Refs(n, i)|
    {
      UnlinkFileRefs(nodes, dp, k, ip, i);
    }
  }

  lemma UnlinkDirCounts(nodes: Nodes, dp: nat, k: nat, ip: nat)
    requires CountsOk(nodes) && Names(nodes, dp, k, ip) && LinkedDir(nodes, ip) && ip != dp && nodes[ip].nlink == 1
    requires nodes[dp].nlink > 1
    requires |nodes[ip].ents| >= 2 && nodes[ip].ents[0].name == "." && nodes[ip].ents[1].inum == dp
    requires nodes[ip].ents[1].name != "."
    requires forall j :: 2 <= j < |nodes[ip].ents| ==> nodes[ip].ents[j].inum == 0
    ensures CountsOk(UnlinkDir(nodes, dp, k, ip))
  {
    hide Refs;
    var n := UnlinkDir(nodes, dp, k, ip);
    forall i | i in n
      ensures n[i].nlink == |Refs(n, i)|
    {
      UnlinkDirRefs(nodes, dp, k, ip, i);
    }
  }

  // ---------------------------------------------------------- entries and the tree

  /** Nobody in this directory has the name. */
  ghost predicate Unused(ents: seq<Dirent>, name: string) {
    forall j :: 0 <= j < |ents| ==> ents[j].inum == 0 || ents[j].name != name
  }

  /** A new entry keeps its directory in order. */
  lemma NewEntryOk(nodes: Nodes, n: Nodes, dp: nat, k: nat, ip: nat, name: string)
    requires dp in nodes && dp in n && EntriesOk(nodes, dp) && Vacant(nodes, dp, k) && Unused(nodes[dp].ents, name)
    requires GoodName(name)
    requires n[dp].ents == SetEnt(nodes[dp].ents, k, Dirent(ip, name)) && ip in n && !n[ip].kind.Free? && ip != 0
    requires n.Keys == nodes.Keys && (forall d :: d in n && n[d].kind.Free? ==> nodes[d].kind.Free?)
    requires (forall d :: LinkedDir(nodes, d) ==> LinkedDir(n, d))
    ensures EntriesOk(n, dp)
  {
    hide LinkedDir;
  }

  lemma OtherEntriesOk(nodes: Nodes, n: Nodes, d: nat)
    requires d in nodes && d in n && EntriesOk(nodes, d) && n[d].ents == nodes[d].ents
    requires n.Keys == nodes.Keys && (forall i :: i in n && n[i].kind.Free? ==> nodes[i].kind.Free?)
    requires (forall i :: LinkedDir(nodes, i) ==> LinkedDir(n, i))
    ensures EntriesOk(n, d)
  {
    hide LinkedDir;
  }

  /** A node without links is named by nobody. */
  lemma NobodyNames(nodes: Nodes, ip: nat)
    requires CountsOk(nodes) && ip in nodes && nodes[ip].nlink == 0
    ensures forall p: nat, j: nat :: !Names(nodes, p, j, ip)
  {
    forall p: nat, j: nat
      ensures !Names(nodes, p, j, ip)
    {
      assert Names(nodes, p, j, ip) ==> (p, j) in Refs(nodes, ip);
    }
  }

  lemma ClearedOk(nodes: Nodes, n: Nodes, dp: nat, k: nat)
    requires dp in nodes && dp in n && EntriesOk(nodes, dp) && 2 <= k < |nodes[dp].ents|
    requires n[dp].ents == nodes[dp].ents[k := EMPTY]
    requires n.Keys == nodes.Keys && (forall d :: d in n && n[d].kind.Free? ==> nodes[d].kind.Free?)
    requires LinkedDir(n, nodes[dp].ents[1].inum)
    ensures EntriesOk(n, dp)
  {
    hide LinkedDir;
  }

  /** The same linked directories, named by the same entries, form the same tree. */
  lemma SameTree(nodes: Nodes, n: Nodes, spot: map<nat, (nat, nat)>, depth: map<nat, nat>)
    requires TreeOk(nodes, spot, depth)
    requires forall d :: LinkedDir(n, d) <==> LinkedDir(nodes, d)
    requires forall d: nat, p: nat, j: nat :: LinkedDir(n, d) && j >= 2 ==>
               (Names(n, p, j, d) <==> Names(nodes, p, j, d))
    requires forall d :: LinkedDir(n, d) ==> DotDot(n, d) == DotDot(nodes, d)
    ensures TreeOk(n, spot, depth)
  {
    hide Names, DotDot, LinkedDir;
    forall d | LinkedDir(n, d) && d != ROOT
      ensures Placed(n, spot, depth, d)
    {
      assert Placed(nodes, spot, depth, d);
    }
  }

  lemma LinkFileDirs(nodes: Nodes, dp: nat, k: nat, ip: nat, name: string)
    requires DirsOk(nodes) && LinkedDir(nodes, dp) && Vacant(nodes, dp, k) && ip in nodes && ip != dp && ip != 0
    requires !nodes[ip].kind.Dir? && !nodes[ip].kind.Free? && Unused(nodes[dp].ents, name) && GoodName(name)
    ensures var n := LinkFile(nodes, dp, k, ip, name);
            && DirsOk(n) && (forall d :: LinkedDir(n, d) <==> LinkedDir(nodes, d))
            && (forall d :: LinkedDir(n, d) ==> DotDot(n, d) == DotDot(nodes, d))
  {
    var n := LinkFile(nodes, dp, k, ip, name);
    LinkFileFacts(nodes, dp, k, ip, name);
    hide LinkFile, SetEnt, EntriesOk, LinkedDir, DotDot;
    forall d | LinkedDir(n, d)
      ensures EntriesOk(n, d)
    {
      if d == dp {
        NewEntryOk(nodes, n, dp, k, ip, name);
      } else {
        OtherEntriesOk(nodes, n, d);
      }
    }
  }

  lemma LinkFileFacts(nodes: Nodes, dp: nat, k: nat, ip: nat, name: string)
    requires LinkedDir(nodes, dp) && Vacant(nodes, dp, k) && ip in nodes && ip != dp && !nodes[ip].kind.Dir?
    requires !nodes[ip].kind.Free?
    ensures var n := LinkFile(nodes, dp, k, ip, name);
            && n.Keys == nodes.Keys && (forall d :: d in n && n[d].kind.Free? ==>
                                          nodes[d].kind.Free?) && !n[ip].kind.Free?
            && n[dp].ents == SetEnt(nodes[dp].ents, k, Dirent(ip, name)) && (forall d :: d in n && d != dp ==>
                                                                               n[d].ents == nodes[d].ents)
            && (forall d :: LinkedDir(n, d) <==> LinkedDir(nodes, d)) && (forall d :: LinkedDir(n, d) ==>
                                                                            d in n && DotDot(n, d) == DotDot(nodes, d))
  {
    var n := LinkFile(nodes, dp, k, ip, name);
    assert forall d :: d in n && d != dp && d != ip ==> n[d] == nodes[d];
    assert DotDot(n, dp) == DotDot(nodes, dp);
  }

  lemma LinkFileNames(nodes: Nodes, dp: nat, k: nat, ip: nat, name: string, d: nat, p: nat, j: nat)
    requires LinkedDir(nodes, dp) && Vacant(nodes, dp, k) && ip in nodes && ip != dp && !nodes[ip].kind.Dir?
    requires d != ip && d != 0
    ensures Names(LinkFile(nodes, dp, k, ip, name), p, j, d) <==> Names(nodes, p, j, d)
  {
  }

  lemma LinkFileOk(nodes: Nodes, spot: map<nat, (nat, nat)>, depth: map<nat, nat>, dp: nat, k: nat, ip: nat,
                   name: string)
    requires TreeInv(nodes, spot, depth) && LinkedDir(nodes, dp) && Vacant(nodes, dp, k) && ip in nodes && ip != dp
    requires !nodes[ip].kind.Dir? && !nodes[ip].kind.Free? && Unused(nodes[dp].ents, name) && GoodName(name)
    ensures TreeInv(LinkFile(nodes, dp, k, ip, name), spot, depth)
  {
    hide CountsOk, TreeOk, DirsOk, Names, LinkFile;
    var n := LinkFile(nodes, dp, k, ip, name);
    LinkFileCounts(nodes, dp, k, ip, name);
    LinkFileDirs(nodes, dp, k, ip, name);
    forall d: nat, p: nat, j: nat | LinkedDir(n, d) && j >= 2
      ensures Names(n, p, j, d) <==> Names(nodes, p, j, d)
    {
      LinkFileNames(nodes, dp, k, ip, name, d, p, j);
    }
    SameTree(nodes, n, spot, depth);
  }

  lemma UnlinkFileDirs(nodes: Nodes, dp: nat, k: nat, ip: nat)
    requires DirsOk(nodes) && Names(nodes, dp, k, ip) && k >= 2 && ip in nodes && ip != dp && !nodes[ip].kind.Dir?
    ensures var n := UnlinkFile(nodes, dp, k, ip);
            && DirsOk(n) && (forall d :: LinkedDir(n, d) <==> LinkedDir(nodes, d))
            && (forall d :: LinkedDir(n, d) ==> DotDot(n, d) == DotDot(nodes, d))
  {
    var n := UnlinkFile(nodes, dp, k, ip);
    UnlinkFileFacts(nodes, dp, k, ip);
    hide UnlinkFile, LinkedDir, DotDot;
    forall d | LinkedDir(n, d)
      ensures EntriesOk(n, d)
    {
      assert EntriesOk(nodes, d);
      if d == dp {
        ClearedOk(nodes, n, dp, k);
      } else {
        OtherEntriesOk(nodes, n, d);
      }
    }
  }

  lemma UnlinkFileFacts(nodes: Nodes, dp: nat, k: nat, ip: nat)
    requires Names(nodes, dp, k, ip) && k >= 2 && ip in nodes && ip != dp && !nodes[ip].kind.Dir?
    ensures var n := UnlinkFile(nodes, dp, k, ip);
            && n.Keys == nodes.Keys && (forall d :: d in n && n[d].kind.Free? ==> nodes[d].kind.Free?)
            && n[dp].ents == nodes[dp].ents[k := EMPTY] && (forall d :: d in n && d != dp ==>
                                                              n[d].ents == nodes[d].ents)
            && (forall d :: LinkedDir(n, d) <==> LinkedDir(nodes, d)) && (forall d :: LinkedDir(n, d) ==>
                                                                            d in n && DotDot(n, d) == DotDot(nodes, d))
  {
    var n := UnlinkFile(nodes, dp, k, ip);
    assert forall d :: d in n && d != dp && d != ip ==> n[d] == nodes[d];
    assert DotDot(n, dp) == DotDot(nodes, dp);
  }

  lemma UnlinkFileNames(nodes: Nodes, dp: nat, k: nat, ip: nat, d: nat, p: nat, j: nat)
    requires Names(nodes, dp, k, ip) && ip in nodes && ip != dp && !nodes[ip].kind.Dir? && d != ip && d != 0
    ensures Names(UnlinkFile(nodes, dp, k, ip), p, j, d) <==> Names(nodes, p, j, d)
  {
  }

  lemma UnlinkFileOk(nodes: Nodes, spot: map<nat, (nat, nat)>, depth: map<nat, nat>, dp: nat, k: nat, ip: nat)
    requires TreeInv(nodes, spot, depth) && Names(nodes, dp, k, ip) && k >= 2 && ip in nodes && !nodes[ip].kind.Dir?
    ensures ip != dp && nodes[ip].nlink > 0 && TreeInv(UnlinkFile(nodes, dp, k, ip), spot, depth)
  {
    hide CountsOk, TreeOk, DirsOk, UnlinkFile;
    assert ip != dp;
    hide Names;
    var n := UnlinkFile(nodes, dp, k, ip);
    UnlinkFileCounts(nodes, dp, k, ip);
    UnlinkFileDirs(nodes, dp, k, ip);
    forall d: nat, p: nat, j: nat | LinkedDir(n, d) && j >= 2
      ensures Names(n, p, j, d) <==> Names(nodes, p, j, d)
    {
      UnlinkFileNames(nodes, dp, k, ip, d, p, j);
    }
    SameTree(nodes, n, spot, depth);
  }

  // ------------------------------------------------------------- new directories

  lemma LinkDirDirs(nodes: Nodes, dp: nat, k: nat, ip: nat, name: string)
    requires DirsOk(nodes) && LinkedDir(nodes, dp) && Vacant(nodes, dp, k) && ip in nodes && ip != dp && ip != 0
    requires dp != 0
    requires nodes[ip] == Node(Dir, 0, [Dirent(ip, "."), Dirent(dp, "..")]) && Unused(nodes[dp].ents, name)
    requires GoodName(name)
    ensures var n := LinkDir(nodes, dp, k, ip, name);
            && DirsOk(n) && (forall d :: LinkedDir(n, d) <==> LinkedDir(nodes, d) || d == ip)
            && (forall d :: LinkedDir(nodes, d) ==> DotDot(n, d) == DotDot(nodes, d))
  {
    var n := LinkDir(nodes, dp, k, ip, name);
    LinkDirFacts(nodes, dp, k, ip, name);
    hide LinkDir, SetEnt, EntriesOk, LinkedDir, DotDot;
    forall d | LinkedDir(n, d)
      ensures EntriesOk(n, d)
    {
      if d == dp {
        NewEntryOk(nodes, n, dp, k, ip, name);
      } else if d != ip {
        OtherEntriesOk(nodes, n, d);
      }
    }
  }

  lemma LinkDirFacts(nodes: Nodes, dp: nat, k: nat, ip: nat, name: string)
    requires LinkedDir(nodes, dp) && Vacant(nodes, dp, k) && ip in nodes && ip != dp && ip != 0 && dp != 0
    requires nodes[ip] == Node(Dir, 0, [Dirent(ip, "."), Dirent(dp, "..")])
    ensures var n := LinkDir(nodes, dp, k, ip, name);
            && n.Keys == nodes.Keys && (forall d :: d in n && n[d].kind.Free? ==>
                                          nodes[d].kind.Free?) && !n[ip].kind.Free?
            && n[dp].ents == SetEnt(nodes[dp].ents, k, Dirent(ip, name)) && (forall d :: d in n && d != dp ==>
                                                                               n[d].ents == nodes[d].ents)
            && (forall d :: LinkedDir(n, d) <==> LinkedDir(nodes, d) || d == ip) && EntriesOk(n, ip)
            && (forall d :: LinkedDir(nodes, d) ==> d in n && DotDot(n, d) == DotDot(nodes, d))
            && (forall d :: LinkedDir(n, d) ==> d in n)
  {
    var n := LinkDir(nodes, dp, k, ip, name);
    assert forall d :: d in n && d != dp && d != ip ==> n[d] == nodes[d];
    assert LinkedDir(n, dp) && LinkedDir(n, ip);
    assert DotDot(n, dp) == DotDot(nodes, dp);
  }

  lemma LinkDirNames(nodes: Nodes, dp: nat, k: nat, ip: nat, name: string, d: nat, p: nat, j: nat)
    requires LinkedDir(nodes, dp) && Vacant(nodes, dp, k) && ip in nodes && ip != dp && j >= 2 && d != 0 && name != "."
    requires nodes[ip] == Node(Dir, 0, [Dirent(ip, "."), Dirent(dp, "..")])
    ensures Names(LinkDir(nodes, dp, k, ip, name), p, j, d) <==> Names(nodes, p, j, d) || (p == dp && j == k && d == ip)
  {
  }

  lemma LinkDirOk(nodes: Nodes, spot: map<nat, (nat, nat)>, depth: map<nat, nat>, dp: nat, k: nat, ip: nat,
                  name: string)
    requires TreeInv(nodes, spot, depth) && LinkedDir(nodes, dp) && Vacant(nodes, dp, k) && ip in nodes && ip != dp
    requires dp in depth
    requires nodes[ip] == Node(Dir, 0, [Dirent(ip, "."), Dirent(dp, "..")]) && Unused(nodes[dp].ents, name)
    requires GoodName(name)
    ensures TreeInv(LinkDir(nodes, dp, k, ip, name), spot[ip := (dp, k)], depth[ip := depth[dp] + 1])
  {
    hide CountsOk, TreeOk, DirsOk, Names;
    var n := LinkDir(nodes, dp, k, ip, name);
    assert n[ip].ents == nodes[ip].ents && DotDot(n, ip) == dp;
    hide LinkDir;
    LinkDirCounts(nodes, dp, k, ip, name);
    LinkDirDirs(nodes, dp, k, ip, name);
    NobodyNames(nodes, ip);
    forall d: nat, p: nat, j: nat | LinkedDir(n, d) && j >= 2
      ensures Names(n, p, j, d) <==> Names(nodes, p, j, d) || (p == dp && j == k && d == ip)
    {
      LinkDirNames(nodes, dp, k, ip, name, d, p, j);
    }
    GrownTree(nodes, n, spot, depth, dp, k, ip);
  }

  lemma GrownTree(nodes: Nodes, n: Nodes, spot: map<nat, (nat, nat)>, depth: map<nat, nat>, dp: nat, k: nat, ip: nat)
    requires TreeOk(nodes, spot, depth) && LinkedDir(nodes, dp) && dp in depth && !LinkedDir(nodes, ip) && ip != dp
    requires forall d :: LinkedDir(n, d) <==> LinkedDir(nodes, d) || d == ip
    requires forall d: nat, p: nat, j: nat :: LinkedDir(n, d) && j >= 2 ==>
               (Names(n, p, j, d) <==> Names(nodes, p, j, d) || (p == dp && j == k && d == ip))
    requires forall d :: LinkedDir(nodes, d) ==> DotDot(n, d) == DotDot(nodes, d)
    requires DotDot(n, ip) == dp && k >= 2 && forall p: nat, j: nat :: !Names(nodes, p, j, ip)
    ensures TreeOk(n, spot[ip := (dp, k)], depth[ip := depth[dp] + 1])
  {
    hide DotDot;
    var spot', depth' := spot[ip := (dp, k)], depth[ip := depth[dp] + 1];
    assert Names(n, dp, k, ip);
    forall d | LinkedDir(n, d) && d != ROOT
      ensures Placed(n, spot', depth', d)
    {
      if d != ip {
        assert Placed(nodes, spot, depth, d);
        assert LinkedDir(nodes, spot[d].0);
      }
    }
    hide Names;
  }

  // ---------------------------------------------------------- removed directories

  /** No directory but dots: nothing below it. */
  predicate EmptyDir(ents: seq<Dirent>) {
    forall j :: 2 <= j < |ents| ==> ents[j].inum == 0
  }

  lemma NamedDir(nodes: Nodes, spot: map<nat, (nat, nat)>, depth: map<nat, nat>, dp: nat, k: nat, ip: nat)
    requires TreeInv(nodes, spot, depth) && Names(nodes, dp, k, ip) && k >= 2 && ip in nodes && nodes[ip].kind.Dir?
    ensures LinkedDir(nodes, ip) && ip != ROOT && ip != dp && ip in spot && spot[ip] == (dp, k)
    ensures DotDot(nodes, ip) == dp
  {
    hide EntriesOk;
    assert (dp, k) in Refs(nodes, ip);
    assert |Refs(nodes, ip)| > 0;
    hide Refs;
    assert LinkedDir(nodes, ip);
    assert Placed(nodes, spot, depth, ip);
  }

  /** Nothing's ".." is an empty directory. */
  lemma NoChild(nodes: Nodes, spot: map<nat, (nat, nat)>, depth: map<nat, nat>, ip: nat, d: nat)
    requires TreeInv(nodes, spot, depth) && LinkedDir(nodes, ip) && ip != ROOT && EmptyDir(nodes[ip].ents)
    requires LinkedDir(nodes, d)
    ensures DotDot(nodes, d) != ip
  {
    hide EntriesOk, Refs;
    assert d != ROOT ==> Placed(nodes, spot, depth, d);
  }

  lemma EmptyDirLinks(nodes: Nodes, spot: map<nat, (nat, nat)>, depth: map<nat, nat>, dp: nat, k: nat, ip: nat)
    requires TreeInv(nodes, spot, depth) && Names(nodes, dp, k, ip) && k >= 2 && LinkedDir(nodes, ip) && ip != ROOT
    requires EmptyDir(nodes[ip].ents)
    requires ip in spot && spot[ip] == (dp, k)
    ensures nodes[ip].nlink == 1
  {
    hide CountsOk, DirsOk, TreeOk, Refs, Names;
    forall d: nat, j: nat | Names(nodes, d, j, ip)
      ensures d == dp && j == k
    {
      OnlyName(nodes, spot, depth, dp, k, ip, d, j);
    }
    CountOf(nodes, ip);
    SingleRef(nodes, dp, k, ip);
  }

  lemma CountOf(nodes: Nodes, i: nat)
    requires CountsOk(nodes) && i in nodes
    ensures nodes[i].nlink == |Refs(nodes, i)|
  {
    hide Refs;
  }

  lemma NameIsRef(nodes: Nodes, d: nat, k: nat, i: nat)
    requires Names(nodes, d, k, i)
    ensures (d, k) in Refs(nodes, i)
  {
  }

  lemma SingleRef(nodes: Nodes, dp: nat, k: nat, ip: nat)
    requires Names(nodes, dp, k, ip) && forall d: nat, j: nat :: Names(nodes, d, j, ip) ==> d == dp && j == k
    ensures |Refs(nodes, ip)| == 1
  {
    NameIsRef(nodes, dp, k, ip);
    hide Names;
    assert Refs(nodes, ip) == {(dp, k)};
  }

  lemma DotsFirst(nodes: Nodes, d: nat, j: nat, ip: nat)
    requires DirsOk(nodes) && Names(nodes, d, j, ip) && DotDot(nodes, d) != ip
    ensures j >= 2
  {
    assert EntriesOk(nodes, d);
  }

  lemma OnlyName(nodes: Nodes, spot: map<nat, (nat, nat)>, depth: map<nat, nat>, dp: nat, k: nat, ip: nat, d: nat,
                 j: nat)
    requires TreeInv(nodes, spot, depth) && LinkedDir(nodes, ip) && ip != ROOT && EmptyDir(nodes[ip].ents)
    requires ip in spot && spot[ip] == (dp, k) && Names(nodes, d, j, ip)
    ensures d == dp && j == k
  {
    hide CountsOk, Placed, DirsOk, EntriesOk;
    NoChild(nodes, spot, depth, ip, d);
    DotsFirst(nodes, d, j, ip);
  }

  lemma TwoRefs(nodes: Nodes, spot: map<nat, (nat, nat)>, depth: map<nat, nat>, dp: nat, ip: nat)
    requires TreeInv(nodes, spot, depth) && LinkedDir(nodes, dp) && LinkedDir(nodes, ip) && ip != dp
    requires DotDot(nodes, ip) == dp
    ensures nodes[dp].nlink > 1
  {
    hide CountsOk, Refs;
    DotDotNames(nodes, ip, dp);
    NameIsRef(nodes, ip, 1, dp);
    CountOf(nodes, dp);
    if dp == ROOT {
      DotDotNames(nodes, ROOT, ROOT);
      NameIsRef(nodes, ROOT, 1, ROOT);
      AtLeastTwo(Refs(nodes, dp), (ip, 1), (ROOT, 1));
    } else {
      assert Placed(nodes, spot, depth, dp);
      NameIsRef(nodes, spot[dp].0, spot[dp].1, dp);
      AtLeastTwo(Refs(nodes, dp), (ip, 1), spot[dp]);
    }
  }

  lemma DotDotNames(nodes: Nodes, d: nat, p: nat)
    requires DirsOk(nodes) && LinkedDir(nodes, d) && DotDot(nodes, d) == p
    ensures Names(nodes, d, 1, p)
  {
    assert EntriesOk(nodes, d);
  }

  lemma AtLeastTwo(s: set<(nat, nat)>, a: (nat, nat), b: (nat, nat))
    requires a in s && b in s && a != b
    ensures |s| >= 2
  {
    assert {a, b} <= s;
    assert |s - {a} - {b}| == |s| - 2;
  }

  lemma UnlinkDirFacts(nodes: Nodes, dp: nat, k: nat, ip: nat)
    requires Names(nodes, dp, k, ip) && k >= 2 && LinkedDir(nodes, ip) && ip != dp && nodes[ip].nlink == 1
    requires nodes[dp].nlink > 1 && EmptyDir(nodes[ip].ents)
    ensures var n := UnlinkDir(nodes, dp, k, ip);
            && n.Keys == nodes.Keys && (forall d :: d in n && n[d].kind.Free? ==> nodes[d].kind.Free?)
            && n[dp].ents == nodes[dp].ents[k := EMPTY] && (forall d :: d in n && d != dp ==>
                                                              n[d].ents == nodes[d].ents)
            && (forall d :: LinkedDir(n, d) <==> LinkedDir(nodes, d) && d != ip)
            && (forall d :: LinkedDir(n, d) ==> DotDot(n, d) == DotDot(nodes, d))
  {
    var n := UnlinkDir(nodes, dp, k, ip);
    assert forall d :: d in n && d != dp && d != ip ==> n[d] == nodes[d];
    assert DotDot(n, dp) == DotDot(nodes, dp);
  }

  lemma UnlinkDirNames(nodes: Nodes, dp: nat, k: nat, ip: nat, d: nat, p: nat, j: nat)
    requires Names(nodes, dp, k, ip) && LinkedDir(nodes, ip) && ip != dp && nodes[ip].nlink == 1
    requires nodes[dp].nlink > 1 && EmptyDir(nodes[ip].ents)
    requires d != ip && d != 0 && j >= 2
    ensures Names(UnlinkDir(nodes, dp, k, ip), p, j, d) <==> Names(nodes, p, j, d)
  {
  }

  lemma OtherEntriesKept(nodes: Nodes, n: Nodes, d: nat)
    requires d in nodes && d in n && EntriesOk(nodes, d) && n[d].ents == nodes[d].ents
    requires LinkedDir(n, nodes[d].ents[1].inum)
    requires n.Keys == nodes.Keys && (forall i :: i in n && n[i].kind.Free? ==> nodes[i].kind.Free?)
    ensures EntriesOk(n, d)
  {
    hide LinkedDir;
  }

  lemma ShrunkTree(nodes: Nodes, n: Nodes, spot: map<nat, (nat, nat)>, depth: map<nat, nat>, ip: nat)
    requires TreeOk(nodes, spot, depth) && ip != ROOT
    requires forall d :: LinkedDir(n, d) <==> LinkedDir(nodes, d) && d != ip
    requires forall d: nat, p: nat, j: nat :: LinkedDir(n, d) && j >= 2 ==>
               (Names(n, p, j, d) <==> Names(nodes, p, j, d))
    requires forall d :: LinkedDir(n, d) ==> DotDot(n, d) == DotDot(nodes, d)
    ensures TreeOk(n, spot, depth)
  {
    hide Names, DotDot, LinkedDir;
    forall d | LinkedDir(n, d) && d != ROOT
      ensures Placed(n, spot, depth, d)
    {
      assert Placed(nodes, spot, depth, d);
    }
  }

  /** unlink of an empty directory: its one link was the name, and its ".." one of
      its parent's links. */
  lemma UnlinkDirOk(nodes: Nodes, spot: map<nat, (nat, nat)>, depth: map<nat, nat>, dp: nat, k: nat, ip: nat)
    requires TreeInv(nodes, spot, depth) && Names(nodes, dp, k, ip) && k >= 2 && ip in nodes && nodes[ip].kind.Dir?
    requires EmptyDir(nodes[ip].ents)
    ensures ip != dp && nodes[ip].nlink == 1 && TreeInv(UnlinkDir(nodes, dp, k, ip), spot, depth)
  {
    NamedDir(nodes, spot, depth, dp, k, ip);
    assert LinkedDir(nodes, dp) && 0 !in nodes && EntriesOk(nodes, ip);
    hide CountsOk, TreeOk, DirsOk, EntriesOk;
    EmptyDirLinks(nodes, spot, depth, dp, k, ip);
    TwoRefs(nodes, spot, depth, dp, ip);
    UnlinkDirParts(nodes, spot, depth, dp, k, ip);
  }

  lemma UnlinkDirParts(nodes: Nodes, spot: map<nat, (nat, nat)>, depth: map<nat, nat>, dp: nat, k: nat, ip: nat)
    requires TreeInv(nodes, spot, depth) && Names(nodes, dp, k, ip) && k >= 2 && LinkedDir(nodes, ip)
    requires EmptyDir(nodes[ip].ents)
    requires ip != dp && ip != ROOT && nodes[ip].nlink == 1 && nodes[dp].nlink > 1 && DotDot(nodes, ip) == dp
    requires 0 !in nodes
    requires |nodes[ip].ents| >= 2 && nodes[ip].ents[0].name == "." && nodes[ip].ents[1].name == ".."
    ensures TreeInv(UnlinkDir(nodes, dp, k, ip), spot, depth)
  {
    hide CountsOk, TreeOk, DirsOk, UnlinkDir;
    var n := UnlinkDir(nodes, dp, k, ip);
    UnlinkDirCounts(nodes, dp, k, ip);
    UnlinkDirFacts(nodes, dp, k, ip);
    UnlinkDirDirs(nodes, spot, depth, dp, k, ip);
    hide Names;
    forall d: nat, p: nat, j: nat | LinkedDir(n, d) && j >= 2
      ensures Names(n, p, j, d) <==> Names(nodes, p, j, d)
    {
      InKeys(nodes, d);
      UnlinkDirNames(nodes, dp, k, ip, d, p, j);
    }
    hide LinkedDir;
    ShrunkTree(nodes, n, spot, depth, ip);
  }

  lemma UnlinkDirDirs(nodes: Nodes, spot: map<nat, (nat, nat)>, depth: map<nat, nat>, dp: nat, k: nat, ip: nat)
    requires TreeInv(nodes, spot, depth) && Names(nodes, dp, k, ip) && k >= 2 && LinkedDir(nodes, ip)
    requires EmptyDir(nodes[ip].ents)
    requires ip != dp && ip != ROOT && nodes[ip].nlink == 1 && nodes[dp].nlink > 1
    ensures DirsOk(UnlinkDir(nodes, dp, k, ip))
  {
    hide TreeInv, UnlinkDir, EntriesOk;
    var n := UnlinkDir(nodes, dp, k, ip);
    UnlinkDirFacts(nodes, dp, k, ip);
    forall d | LinkedDir(n, d)
      ensures EntriesOk(n, d)
    {
      UnlinkDirEntries(nodes, n, spot, depth, dp, k, ip, d);
    }
  }

  lemma InKeys(nodes: Nodes, d: nat)
    ensures LinkedDir(nodes, d) ==> d in nodes
  {
  }

  lemma UnlinkDirEntries(nodes: Nodes, n: Nodes, spot: map<nat, (nat, nat)>, depth: map<nat, nat>, dp: nat, k: nat,
                         ip: nat, d: nat)
    requires TreeInv(nodes, spot, depth) && LinkedDir(nodes, ip) && ip != ROOT && EmptyDir(nodes[ip].ents)
    requires LinkedDir(nodes, d) && d != ip
    requires n.Keys == nodes.Keys && (forall i :: i in n && n[i].kind.Free? ==> nodes[i].kind.Free?)
    requires dp in nodes && 2 <= k < |nodes[dp].ents| && n[dp].ents == nodes[dp].ents[k := EMPTY]
    requires (forall i :: i in n && i != dp ==> n[i].ents == nodes[i].ents)
    requires forall i :: LinkedDir(n, i) <==> LinkedDir(nodes, i) && i != ip
    ensures d in n && EntriesOk(n, d)
  {
    NoChild(nodes, spot, depth, ip, d);
    assert EntriesOk(nodes, d) && LinkedDir(n, nodes[d].ents[1].inum);
    hide TreeInv, LinkedDir;
    if d == dp {
      ClearedOk(nodes, n, dp, k);
    } else {
      OtherEntriesKept(nodes, n, d);
    }
  }

  // ---------------------------------------------------------- nodes without links

  /** A node with no link may be taken into use or given up. */
  lemma UnlinkedOk(nodes: Nodes, spot: map<nat, (nat, nat)>, depth: map<nat, nat>, ip: nat, x: Node)
    requires TreeInv(nodes, spot, depth) && ip in nodes && nodes[ip].nlink == 0 && x.nlink == 0
    ensures TreeInv(nodes[ip := x], spot, depth)
  {
    hide CountsOk, DirsOk, TreeOk, Names, LinkedDir, DotDot;
    var n := nodes[ip := x];
    NobodyNames(nodes, ip);
    UnlinkedCounts(nodes, ip, x);
    UnlinkedDirs(nodes, ip, x);
    forall d: nat, p: nat, j: nat
      ensures Names(n, p, j, d) <==> Names(nodes, p, j, d)
    {
      UnlinkedNames(nodes, ip, x, d, p, j);
    }
    forall d
      ensures (LinkedDir(n, d) <==> LinkedDir(nodes, d)) && (LinkedDir(n, d) ==> DotDot(n, d) == DotDot(nodes, d))
    {
      UnlinkedNames(nodes, ip, x, d, 0, 0);
    }
    SameTree(nodes, n, spot, depth);
  }

  lemma UnlinkedNames(nodes: Nodes, ip: nat, x: Node, d: nat, p: nat, j: nat)
    requires ip in nodes && nodes[ip].nlink == 0 && x.nlink == 0
    ensures Names(nodes[ip := x], p, j, d) <==> Names(nodes, p, j, d)
    ensures LinkedDir(nodes[ip := x], d) <==> LinkedDir(nodes, d)
    ensures LinkedDir(nodes, d) ==> DotDot(nodes[ip := x], d) == DotDot(nodes, d)
  {
  }

  lemma UnlinkedCounts(nodes: Nodes, ip: nat, x: Node)
    requires CountsOk(nodes) && ip in nodes && nodes[ip].nlink == 0 && x.nlink == 0
    ensures CountsOk(nodes[ip := x])
  {
    hide Refs;
    var n := nodes[ip := x];
    forall i | i in n
      ensures n[i].nlink == |Refs(n, i)|
    {
      UnlinkedRefs(nodes, ip, x, i);
    }
  }

  lemma UnlinkedDirs(nodes: Nodes, ip: nat, x: Node)
    requires DirsOk(nodes) && ip in nodes && nodes[ip].nlink == 0 && x.nlink == 0
    requires forall p: nat, j: nat :: !Names(nodes, p, j, ip)
    ensures DirsOk(nodes[ip := x])
  {
    var n := nodes[ip := x];
    forall d | LinkedDir(n, d)
      ensures EntriesOk(n, d)
    {
      assert EntriesOk(nodes, d) && d != ip;
      forall k | 2 <= k < |nodes[d].ents| && nodes[d].ents[k].inum != 0
        ensures nodes[d].ents[k].inum != ip
      {
        assert !Names(nodes, d, k, ip);
      }
    }
  }

  // -------------------------------------------------------------- one tree

  /** Following ".." from d this many times. */
  function Climb(nodes: Nodes, d: nat, steps: nat): nat
    decreases steps
  {
    if steps == 0 then d else Climb(nodes, DotDot(nodes, d), steps - 1)
  }

  /** From every linked directory ".." leads to the root, through linked directories. */
  lemma {:induction false} ReachesRoot(nodes: Nodes, spot: map<nat, (nat, nat)>, depth: map<nat, nat>,
                                       d: nat) returns (steps: nat)
    requires TreeInv(nodes, spot, depth) && LinkedDir(nodes, d)
    ensures Climb(nodes, d, steps) == ROOT && forall s: nat :: s <= steps ==> LinkedDir(nodes, Climb(nodes, d, s))
    decreases if d in depth then depth[d] else 0
  {
    hide CountsOk, EntriesOk;
    if d == ROOT {
      steps := 0;
    } else {
      assert Placed(nodes, spot, depth, d);
      var up := DotDot(nodes, d);
      var rest := ReachesRoot(nodes, spot, depth, up);
      steps := rest + 1;
      forall s: nat | s <= steps
        ensures LinkedDir(nodes, Climb(nodes, d, s))
      {
        if s > 0 {
          assert Climb(nodes, d, s) == Climb(nodes, up, s - 1);
        }
      }
    }
  }

  /** Every linked directory but the root has exactly one name, and it is in the
      directory its ".." names. */
  lemma OneName(nodes: Nodes, spot: map<nat, (nat, nat)>, depth: map<nat, nat>, d: nat)
    requires TreeInv(nodes, spot, depth) && LinkedDir(nodes, d) && d != ROOT
    ensures exists k: nat :: k >= 2 && Names(nodes, DotDot(nodes, d), k, d) &&
              forall p: nat, j: nat :: Names(nodes, p, j, d) && j >= 2 ==> p == DotDot(nodes, d) && j == k
  {
    hide CountsOk, EntriesOk;
    assert Placed(nodes, spot, depth, d);
    assert Names(nodes, DotDot(nodes, d), spot[d].1, d);
  }

  /** The tree that mkfs makes: a root that is its own parent. */
  lemma FreshTree(nodes: Nodes)
    requires 0 !in nodes && ROOT in nodes && nodes[ROOT] == Node(Dir, 1, [Dirent(ROOT, "."), Dirent(ROOT, "..")])
    requires forall i :: i in nodes && i != ROOT ==> nodes[i] == Node(Free, 0, [])
    ensures TreeInv(nodes, map[], map[ROOT := 0])
  {
    assert forall d :: LinkedDir(nodes, d) <==> d == ROOT;
    assert forall d: nat, k: nat, i: nat :: Names(nodes, d, k, i) <==> d == ROOT && k == 1 && i == ROOT;
    SingleRef(nodes, ROOT, 1, ROOT);
    forall i | i in nodes
      ensures nodes[i].nlink == |Refs(nodes, i)|
    {
      hide Names;
      assert i != ROOT ==> Refs(nodes, i) == {};
    }
    assert EntriesOk(nodes, ROOT);
    hide Refs;
  }
}
