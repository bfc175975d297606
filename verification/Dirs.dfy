/** Directory operations of fs.c and sysfile.c: lookup, dirlink, create, link, unlink
    and the freeing of unlinked inodes, each as one transaction. */
module Dirs {
  import opened Tree

  datatype Created = Found(ip: nat) | Made(ip: nat) | Refused | NoInodes

  datatype Unlinked = Removed(ip: nat) | Failed | NoLinks

  lemma FoundAfter(ents: seq<Dirent>, k: nat, ip: nat, name: string)
    requires k <= |ents| && Unused(ents, name) && ip != 0
    ensures Find(SetEnt(ents, k, Dirent(ip, name)), name) == k
  {
    var e := SetEnt(ents, k, Dirent(ip, name));
    assert e[k] == Dirent(ip, name);
  }

  lemma GoneAfter(ents: seq<Dirent>, k: nat, name: string)
    requires k < |ents| && ents[k].name == name && ents[k].inum != 0
    requires forall i, j :: 0 <= i < j < |ents| && ents[i].inum != 0 && ents[j].inum != 0 ==>
               ents[i].name != ents[j].name
    ensures Unused(ents[k := EMPTY], name)
  {
  }

  lemma NotFound(ents: seq<Dirent>, name: string)
    ensures Find(ents, name) == |ents| <==> Unused(ents, name)
  {
    var k := Find(ents, name);
    assert k < |ents| ==> ents[k].inum != 0 && ents[k].name == name;
  }

  /** dirlink's place for a new entry: the first empty one, or the end. */
  function FirstEmpty(ents: seq<Dirent>): (k: nat)
    ensures k <= |ents| && (k < |ents| ==> ents[k].inum == 0) && forall j :: 0 <= j < k ==> ents[j].inum != 0
  {
    if ents == [] || ents[0].inum == 0 then 0 else 1 + FirstEmpty(ents[1..])
  }

  lemma FirstEmptyIs(ents: seq<Dirent>, k: nat)
    requires k <= |ents| && (k < |ents| ==> ents[k].inum == 0) && forall j :: 0 <= j < k ==> ents[j].inum != 0
    ensures FirstEmpty(ents) == k
  {
  }

  /** The inode a name leads to, zero if there is none. */
  function Target(ents: seq<Dirent>, name: string): nat {
    if Find(ents, name) < |ents| then ents[Find(ents, name)].inum else 0
  }

  /** A directory counts as empty exactly when no name but the dots leads anywhere. */
  lemma EmptyHasNoNames(nodes: Nodes, d: nat)
    requires d in nodes && EntriesOk(nodes, d)
    ensures EmptyDir(nodes[d].ents) <==> forall name :: name != "." && name != ".." ==> Target(nodes[d].ents, name) == 0
  {
    var e := nodes[d].ents;
    if !EmptyDir(e) {
      var j :| 2 <= j < |e| && e[j].inum != 0;
      assert Find(e, e[j].name) < |e|;
      assert e[j].name != "." && e[j].name != ".." && Target(e, e[j].name) != 0;
    }
    if EmptyDir(e) {
      forall name: string | name != "." && name != ".."
        ensures Target(e, name) == 0
      {
        var k := Find(e, name);
        assert k < |e| ==> k >= 2;
      }
    }
  }

  /** Clearing a place that was empty, or adding an empty place, changes no name. */
  lemma SameTargets(ents: seq<Dirent>, k: nat, name: string)
    requires k <= |ents| && (k < |ents| ==> ents[k].inum == 0)
    ensures Target(SetEnt(ents, k, EMPTY), name) == Target(ents, name)
  {
    var e := SetEnt(ents, k, EMPTY);
    var i, j := Find(ents, name), Find(e, name);
    assert i < |ents| ==> e[i] == ents[i];
    assert j < |e| ==> j < |ents| && ents[j] == e[j];
  }

  /** Adding a name and clearing it again. */
  lemma AddedAndCleared(nodes: Nodes, dp: nat, k: nat, ip: nat, name: string)
    requires dp in nodes && ip in nodes && dp != ip && k <= |nodes[dp].ents|
    ensures UnlinkFile(LinkFile(nodes, dp, k, ip, name), dp, k, ip) == nodes[dp := WithEnt(nodes[dp], k, EMPTY)]
  {
    var n := UnlinkFile(LinkFile(nodes, dp, k, ip, name), dp, k, ip);
    assert SetEnt(SetEnt(nodes[dp].ents, k, Dirent(ip, name)), k, EMPTY) == SetEnt(nodes[dp].ents, k, EMPTY);
    assert n.Keys == nodes.Keys;
  }

  /** What a linked directory is known to hold. */
  lemma DirFacts(nodes: Nodes, spot: map<nat, (nat, nat)>, depth: map<nat, nat>, dp: nat)
    requires TreeInv(nodes, spot, depth) && LinkedDir(nodes, dp)
    ensures 0 !in nodes && EntriesOk(nodes, dp) && dp in depth && |nodes[dp].ents| >= 2
    ensures forall k :: 0 <= k < |nodes[dp].ents| && nodes[dp].ents[k].inum != 0 ==> nodes[dp].ents[k].inum in nodes
    ensures FirstEmpty(nodes[dp].ents) >= 2 && Vacant(nodes, dp, FirstEmpty(nodes[dp].ents))
    ensures forall name :: Unused(nodes[dp].ents, name) && 0 < |name| <= DIRSIZ ==> GoodName(name)
    ensures var e := nodes[dp].ents;
            forall k: nat :: k < |e| && e[k].inum != 0 && e[k].name != "." && e[k].name != ".." ==> k >= 2
  {
    hide Refs, EntriesOk;
    assert EntriesOk(nodes, dp) && (dp != ROOT ==> Placed(nodes, spot, depth, dp));
    hide DirsOk, TreeOk;
    EntryFacts(nodes, dp);
  }

  lemma EntryFacts(nodes: Nodes, dp: nat)
    requires dp in nodes && EntriesOk(nodes, dp) && 0 !in nodes
    ensures |nodes[dp].ents| >= 2 && nodes[dp].ents[0].inum != 0 && nodes[dp].ents[1].inum != 0
    ensures forall k :: 0 <= k < |nodes[dp].ents| && nodes[dp].ents[k].inum != 0 ==> nodes[dp].ents[k].inum in nodes
    ensures FirstEmpty(nodes[dp].ents) >= 2 && Vacant(nodes, dp, FirstEmpty(nodes[dp].ents))
    ensures forall name :: Unused(nodes[dp].ents, name) && 0 < |name| <= DIRSIZ ==> GoodName(name)
    ensures var e := nodes[dp].ents;
            forall k: nat :: k < |e| && e[k].inum != 0 && e[k].name != "." && e[k].name != ".." ==> k >= 2
  {
    var e := nodes[dp].ents;
    assert e[0].inum != 0 && e[1].inum != 0;
    hide FirstEmpty;
    forall name | Unused(e, name) && 0 < |name| <= DIRSIZ
      ensures GoodName(name)
    {
      assert e[0].name != name && e[1].name != name;
    }
  }

  class Dirs {
    const ninodes: nat
    var nodes: Nodes
    ghost var spot: map<nat, (nat, nat)>
    ghost var depth: map<nat, nat>

    ghost predicate Valid()
      reads this
    {
      TreeInv(nodes, spot, depth) && forall i: nat :: i in nodes <==> 0 < i < ninodes
    }

    constructor (n: nat, disk: Nodes, ghost s: map<nat, (nat, nat)>, ghost d: map<nat, nat>)
      requires TreeInv(disk, s, d) && forall i: nat :: i in disk <==> 0 < i < n
      ensures Valid() && nodes == disk && ninodes == n
    {
      hide TreeInv;
      ninodes, nodes, spot, depth := n, disk, s, d;
    }

    /** dirlookup: the entry's place and the inode it names. */
    method DirLookup(dp: nat, name: string) returns (found: bool, off: nat, inum: nat)
      requires dp in nodes
      ensures off == Find(nodes[dp].ents, name) && (found <==> off < |nodes[dp].ents|)
      ensures found ==> inum == nodes[dp].ents[off].inum != 0
    {
      var ents := nodes[dp].ents;
      off, inum := 0, 0;
      while off < |ents|
        invariant off <= |ents| && forall j :: 0 <= j < off ==> ents[j].inum == 0 || ents[j].name != name
      {
        if ents[off].inum != 0 && ents[off].name == name {
          return true, off, ents[off].inum;
        }
        off := off + 1;
      }
      return false, off, 0;
    }

    /** dirlink: add a name unless the directory has it already. */
    method DirLink(dp: nat, name: string, inum: nat) returns (ok: bool, ghost off: nat)
      requires dp in nodes
      modifies this`nodes
      ensures ok <==> Unused(old(nodes)[dp].ents, name)
      ensures !ok ==> nodes == old(nodes)
      ensures ok ==> off == FirstEmpty(old(nodes)[dp].ents)
      ensures ok ==> nodes == old(nodes)[dp := WithEnt(old(nodes)[dp], off, Dirent(inum, name))]
    {
      off := 0;
      var found, at, other := DirLookup(dp, name);
      NotFound(nodes[dp].ents, name);
      if found {
        return false, off;
      }
      var k: nat := 0;
      while k < |nodes[dp].ents| && nodes[dp].ents[k].inum != 0
        invariant k <= |nodes[dp].ents| && forall j :: 0 <= j < k ==> nodes[dp].ents[j].inum != 0
      {
        k := k + 1;
      }
      FirstEmptyIs(nodes[dp].ents, k);
      off := k;
      nodes := nodes[dp := WithEnt(nodes[dp], k, Dirent(inum, name))];
      return true, off;
    }

    /** isdirempty: nothing after the two dots. */
    method IsDirEmpty(ip: nat) returns (empty: bool)
      requires ip in nodes
      ensures empty <==> EmptyDir(nodes[ip].ents)
      ensures empty <==> forall j :: 2 <= j < |nodes[ip].ents| ==> nodes[ip].ents[j].inum == 0
    {
      var off := 2;
      while off < |nodes[ip].ents|
        invariant 2 <= off && forall j :: 2 <= j < off && j < |nodes[ip].ents| ==> nodes[ip].ents[j].inum == 0
      {
        if nodes[ip].ents[off].inum != 0 {
          return false;
        }
        off := off + 1;
      }
      return true;
    }

    /** ialloc's search: the first free inode, 0 if there is none. */
    method FindFree() returns (ip: nat)
      requires forall i: nat :: i in nodes <==> 0 < i < ninodes
      ensures ip == 0 <==> forall i :: i in nodes ==> !nodes[i].kind.Free?
      ensures ip != 0 ==> ip in nodes && nodes[ip].kind.Free?
    {
      ip := 1;
      while ip < ninodes
        invariant 1 <= ip && forall i: nat :: 0 < i < ip && i in nodes ==> !nodes[i].kind.Free?
      {
        if nodes[ip].kind.Free? {
          return;
        }
        ip := ip + 1;
      }
      return 0;
    }

    /** create: open an existing file, or make a new inode under a new name. */
    method Create(dp: nat, elem: string, kind: Kind) returns (r: Created)
      requires Valid() && LinkedDir(nodes, dp) && elem != "" && !kind.Free?
      modifies this
      ensures Valid()
      ensures !r.Made? ==> nodes == old(nodes)
      ensures var e := old(nodes)[dp].ents;
              var k := Find(e, Trunc(elem));
              && (r.Found? || r.Refused? <==> k < |e|)
              && (r.Found? <==> k < |e| && kind.File? && e[k].inum in old(nodes)
                                && (old(nodes)[e[k].inum].kind.File? || old(nodes)[e[k].inum].kind.Device?))
              && (r.Found? ==> r.ip == e[k].inum)
              && (r.NoInodes? <==> k == |e| && forall i :: i in old(nodes) ==> !old(nodes)[i].kind.Free?)
      ensures r.Made? ==> && r.ip in old(nodes) && old(nodes)[r.ip].kind.Free?
                          && r.ip in nodes && nodes[r.ip].kind == kind && nodes[r.ip].nlink == 1
                          && dp in nodes && nodes[dp].nlink == old(nodes)[dp].nlink + (if kind.Dir? then 1 else 0)
                          && Find(nodes[dp].ents, Trunc(elem)) < |nodes[dp].ents|
                             && nodes[dp].ents[Find(nodes[dp].ents, Trunc(elem))].inum == r.ip
                          && forall i :: i in old(nodes) && i != r.ip && i != dp ==>
                               i in nodes && nodes[i] == old(nodes)[i]
    {
      hide TreeInv, EntriesOk;
      var name := Trunc(elem);
      DirFacts(nodes, spot, depth, dp);
      NotFound(nodes[dp].ents, name);
      var found, off, ip := DirLookup(dp, name);
      if found {
        if kind.File? && (nodes[ip].kind.File? || nodes[ip].kind.Device?) {
          return Found(ip);
        }
        return Refused;
      }
      ip := FindFree();
      if ip == 0 {
        return NoInodes;
      }
      MakeNode(dp, ip, name, kind);
      return Made(ip);
    }

    /** create's entries for a new directory. */
    method AddDots(ip: nat, dp: nat)
      requires ip in nodes && nodes[ip].ents == [] && ip != 0
      modifies this`nodes
      ensures nodes == old(nodes)[ip := old(nodes)[ip].(ents := [Dirent(ip, "."), Dirent(dp, "..")])]
    {
      assert Unused([], ".");
      var dot, _ := DirLink(ip, ".", ip);
      assert nodes[ip].ents == [Dirent(ip, ".")];
      FirstEmptyIs(nodes[ip].ents, 1);
      var dotdot, _ := DirLink(ip, "..", dp);
      assert nodes[ip].ents == [Dirent(ip, "."), Dirent(dp, "..")];
    }

    /** ialloc and the inode's first contents, with ".." counted for a directory. */
    method NewInode(dp: nat, ip: nat, kind: Kind)
      requires dp in nodes && ip in nodes && ip != 0 && ip != dp
      modifies this`nodes
      ensures nodes == if kind.Dir? then
                         old(nodes)[ip := Node(kind, 1, [Dirent(ip, "."), Dirent(dp, "..")])]
                                   [dp := old(nodes)[dp].(nlink := old(nodes)[dp].nlink + 1)]
                       else old(nodes)[ip := Node(kind, 1, [])]
    {
      nodes := nodes[ip := Node(kind, 1, [])];
      if kind.Dir? {
        nodes := nodes[dp := nodes[dp].(nlink := nodes[dp].nlink + 1)];
        AddDots(ip, dp);
      }
    }

    /** The rest of create, for a free inode and an unused name. */
    method MakeNode(dp: nat, ip: nat, name: string, kind: Kind)
      requires Valid() && LinkedDir(nodes, dp) && ip in nodes && nodes[ip].kind.Free? && !kind.Free?
      requires Unused(nodes[dp].ents, name) && 0 < |name| <= DIRSIZ
      modifies this
      ensures Valid() && ip in nodes && nodes[ip].kind == kind && nodes[ip].nlink == 1
      ensures dp in nodes && nodes[dp].nlink == old(nodes)[dp].nlink + (if kind.Dir? then 1 else 0)
      ensures Find(nodes[dp].ents, name) < |nodes[dp].ents| && nodes[dp].ents[Find(nodes[dp].ents, name)].inum == ip
      ensures forall i :: i in old(nodes) && i != ip && i != dp ==> i in nodes && nodes[i] == old(nodes)[i]
    {
      hide TreeInv, EntriesOk, Find, Unused, FirstEmpty, Vacant, GoodName;
      DirFacts(nodes, spot, depth, dp);
      ghost var n0 := nodes;
      NewInode(dp, ip, kind);
      ghost var off;
      var ok;
      ok, off := DirLink(dp, name, ip);
      FoundAfter(n0[dp].ents, off, ip, name);
      MadeOk(n0, spot, depth, dp, off, ip, name, kind, nodes);
      if kind.Dir? {
        spot, depth := spot[ip := (dp, off)], depth[ip := depth[dp] + 1];
      }
    }

    /** link: another name for a file; the count goes up first and comes back down if
        the name cannot be added. */
    method Link(ip: nat, dp: nat, elem: string) returns (ok: bool)
      requires Valid() && LinkedDir(nodes, dp) && elem != "" && ip in nodes && !nodes[ip].kind.Free?
      modifies this
      ensures Valid()
      ensures ok <==> !old(nodes)[ip].kind.Dir? && Unused(old(nodes)[dp].ents, Trunc(elem))
      ensures !ok ==> nodes == old(nodes)
      ensures ok ==> dp != ip && nodes == LinkFile(old(nodes), dp, FirstEmpty(old(nodes)[dp].ents), ip, Trunc(elem))
    {
      hide TreeInv, EntriesOk, Find, Unused;
      var name := Trunc(elem);
      if nodes[ip].kind.Dir? {
        return false;
      }
      DirFacts(nodes, spot, depth, dp);
      ghost var n0 := nodes;
      nodes := nodes[ip := nodes[ip].(nlink := nodes[ip].nlink + 1)];
      var done, off := DirLink(dp, name, ip);
      if !done {
        nodes := nodes[ip := nodes[ip].(nlink := nodes[ip].nlink - 1)];
        assert nodes == n0;
        return false;
      }
      LinkFileOk(n0, spot, depth, dp, off, ip, name);
      return true;
    }

    /** unlink: take a name away, unless it is a dot or a directory in use.  NoLinks
        stands for the panic, which cannot happen. */
    method Unlink(dp: nat, elem: string) returns (r: Unlinked)
      requires Valid() && LinkedDir(nodes, dp)
      modifies this
      ensures Valid() && !r.NoLinks?
      ensures r.Failed? ==> nodes == old(nodes)
      ensures var e := old(nodes)[dp].ents;
              var name := Trunc(elem);
              var k := Find(e, name);
              && (r.Removed? <==>
                    name != "." && name != ".." && k < |e|
                    && !(e[k].inum in old(nodes) && old(nodes)[e[k].inum].kind.Dir?
                         && !EmptyDir(old(nodes)[e[k].inum].ents)))
              && (r.Removed? ==>
                    && r.ip == e[k].inum && r.ip in old(nodes) && r.ip != dp
                    && nodes == (if old(nodes)[r.ip].kind.Dir? then UnlinkDir(old(nodes), dp, k, r.ip)
                                 else UnlinkFile(old(nodes), dp, k, r.ip))
                    && dp in nodes && Unused(nodes[dp].ents, name))
    {
      hide TreeInv, EntriesOk, Unused, EmptyDir;
      var name := Trunc(elem);
      if name == "." || name == ".." {
        return Failed;
      }
      DirFacts(nodes, spot, depth, dp);
      var found, off, ip := DirLookup(dp, name);
      if !found {
        return Failed;
      }
      ghost var n0 := nodes;
      NamedHasLinks(nodes, spot, depth, dp, off, ip);
      if nodes[ip].nlink < 1 {
        return NoLinks;
      }
      if nodes[ip].kind.Dir? {
        var empty := IsDirEmpty(ip);
        if !empty {
          return Failed;
        }
        UnlinkDirOk(nodes, spot, depth, dp, off, ip);
      } else {
        UnlinkFileOk(nodes, spot, depth, dp, off, ip);
      }
      Clear(dp, off, ip, name);
      return Removed(ip);
    }

    /** unlink's writes. */
    method Clear(dp: nat, off: nat, ip: nat, ghost name: string)
      requires dp in nodes && ip in nodes && dp != ip && off < |nodes[dp].ents| && nodes[dp].ents[off].name == name
      requires nodes[dp].ents[off].inum != 0
      requires EntriesOk(nodes, dp)
      modifies this`nodes
      ensures nodes == (if old(nodes)[ip].kind.Dir? then UnlinkDir(old(nodes), dp, off, ip)
                        else UnlinkFile(old(nodes), dp, off, ip))
      ensures dp in nodes && Unused(nodes[dp].ents, name)
    {
      GoneAfter(nodes[dp].ents, off, name);
      hide EntriesOk, Unused;
      nodes := nodes[dp := nodes[dp].(ents := nodes[dp].ents[off := EMPTY])];
      if nodes[ip].kind.Dir? {
        nodes := nodes[dp := nodes[dp].(nlink := nodes[dp].nlink - 1)];
      }
      nodes := nodes[ip := nodes[ip].(nlink := nodes[ip].nlink - 1)];
    }

    /** link and then unlink of the same new name: every link count and every other
        node is as before, and in the directory every name leads where it did. */
    method LinkThenUnlink(ip: nat, dp: nat, elem: string) returns (ok: bool)
      requires Valid() && LinkedDir(nodes, dp) && elem != "" && ip in nodes && !nodes[ip].kind.Free?
      modifies this
      ensures Valid() && (ok <==> !old(nodes)[ip].kind.Dir? && Unused(old(nodes)[dp].ents, Trunc(elem)))
      ensures nodes.Keys == old(nodes.Keys) && forall i :: i in nodes && i != dp ==> nodes[i] == old(nodes)[i]
      ensures nodes[dp].kind == old(nodes)[dp].kind && nodes[dp].nlink == old(nodes)[dp].nlink
      ensures forall name :: Target(nodes[dp].ents, name) == Target(old(nodes)[dp].ents, name)
    {
      hide TreeInv, EntriesOk, Find, Target;
      DirFacts(nodes, spot, depth, dp);
      ghost var n0, name, k := nodes, Trunc(elem), FirstEmpty(nodes[dp].ents);
      ok := Link(ip, dp, elem);
      if ok {
        FoundAfter(n0[dp].ents, k, ip, name);
        AddedAndCleared(n0, dp, k, ip, name);
        var r := Unlink(dp, elem);
        forall other
          ensures Target(nodes[dp].ents, other) == Target(n0[dp].ents, other)
        {
          SameTargets(n0[dp].ents, k, other);
        }
      }
    }

    /** iput: dropping the last of ref references frees an inode with no links. */
    method Iput(ip: nat, ref: nat) returns (left: nat)
      requires Valid() && ip in nodes && ref >= 1
      modifies this`nodes
      ensures Valid() && left == ref - 1
      ensures nodes == if left == 0 && old(nodes)[ip].nlink == 0 then old(nodes)[ip := Node(Free, 0, [])]
              else old(nodes)
    {
      hide TreeInv;
      if ref == 1 && nodes[ip].nlink == 0 {
        UnlinkedOk(nodes, spot, depth, ip, Node(Free, 0, []));
        nodes := nodes[ip := Node(Free, 0, [])];
      }
      return ref - 1;
    }
  }

  lemma NamedHasLinks(nodes: Nodes, spot: map<nat, (nat, nat)>, depth: map<nat, nat>, dp: nat, off: nat, ip: nat)
    requires TreeInv(nodes, spot, depth) && LinkedDir(nodes, dp) && ip in nodes && off < |nodes[dp].ents|
    requires nodes[dp].ents[off].inum == ip
    requires nodes[dp].ents[off].name != "."
    ensures nodes[ip].nlink > 0 && Names(nodes, dp, off, ip)
  {
    hide DirsOk, TreeOk;
    assert (dp, off) in Refs(nodes, ip);
    assert |Refs(nodes, ip)| > 0;
  }

  /** A new inode, first without links, then named. */
  lemma MadeOk(n0: Nodes, spot: map<nat, (nat, nat)>, depth: map<nat, nat>, dp: nat, off: nat, ip: nat, name: string,
               kind: Kind, n: Nodes)
    requires TreeInv(n0, spot, depth) && LinkedDir(n0, dp) && ip in n0 && ip != dp && n0[ip].kind.Free? && !kind.Free?
    requires dp in depth
    requires Vacant(n0, dp, off) && Unused(n0[dp].ents, name) && GoodName(name)
    requires kind.Dir? ==>
               n == n0[ip := Node(Dir, 1, [Dirent(ip, "."), Dirent(dp, "..")])]
                    [dp := WithEnt(n0[dp].(nlink := n0[dp].nlink + 1), off, Dirent(ip, name))]
    requires !kind.Dir? ==> n == n0[ip := Node(kind, 1, [])][dp := WithEnt(n0[dp], off, Dirent(ip, name))]
    ensures kind.Dir? ==> TreeInv(n, spot[ip := (dp, off)], depth[ip := depth[dp] + 1])
    ensures !kind.Dir? ==> TreeInv(n, spot, depth)
  {
    hide TreeInv, Unused;
    FreeHasNoLinks(n0, spot, depth, ip);
    var n1 := n0[ip := Node(kind, 0, if kind.Dir? then [Dirent(ip, "."), Dirent(dp, "..")] else [])];
    UnlinkedOk(n0, spot, depth, ip, n1[ip]);
    MadeSteps(n0, n1, dp, off, ip, name, kind, n);
    if kind.Dir? {
      LinkDirOk(n1, spot, depth, dp, off, ip, name);
    } else {
      LinkFileOk(n1, spot, depth, dp, off, ip, name);
    }
  }

  lemma MadeSteps(n0: Nodes, n1: Nodes, dp: nat, off: nat, ip: nat, name: string, kind: Kind, n: Nodes)
    requires dp in n0 && ip in n0 && ip != dp && off <= |n0[dp].ents|
    requires n1 == n0[ip := Node(kind, 0, if kind.Dir? then [Dirent(ip, "."), Dirent(dp, "..")] else [])]
    requires kind.Dir? ==>
               n == n0[ip := Node(Dir, 1, [Dirent(ip, "."), Dirent(dp, "..")])]
                    [dp := WithEnt(n0[dp].(nlink := n0[dp].nlink + 1), off, Dirent(ip, name))]
    requires !kind.Dir? ==> n == n0[ip := Node(kind, 1, [])][dp := WithEnt(n0[dp], off, Dirent(ip, name))]
    ensures dp in n1 && ip in n1 && n1[dp] == n0[dp]
    ensures n == if kind.Dir? then LinkDir(n1, dp, off, ip, name) else LinkFile(n1, dp, off, ip, name)
  {
  }

  lemma FreeHasNoLinks(nodes: Nodes, spot: map<nat, (nat, nat)>, depth: map<nat, nat>, ip: nat)
    requires TreeInv(nodes, spot, depth) && ip in nodes && nodes[ip].kind.Free?
    ensures nodes[ip].nlink == 0
  {
  }
}
