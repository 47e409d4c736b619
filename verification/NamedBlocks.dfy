/** Blocks with a name: six characters at the same place in task and partition control blocks. */
module NamedBlocks {
  import opened Bytes
  import opened PoolList
  import opened Pool
  import opened PoolRuns
  import opened Chains
  import opened SystemLists

  /** T_NAME and P_NAME */
  const NAME: nat := 12

  /** The name is a field of the block, apart from the link. */
  predicate HasName(c: Kind)
  {
    c.link + 2 <= NAME && NAME + 6 <= c.size
  }

  function NameOf(img: seq<byte>, n: nat): (r: seq<byte>)
    ensures |r| == 6 && forall o: nat :: o < 6 ==> r[o] == Field(img, n, NAME + o)
  {
    [Field(img, n, NAME), Field(img, n, NAME + 1), Field(img, n, NAME + 2), Field(img, n, NAME + 3), Field(img, n, NAME + 4), Field(img, n, NAME + 5)]
  }

  lemma SameName(img: seq<byte>, img': seq<byte>, c: Kind, nodes: seq<nat>, i: nat)
    requires FieldsKept(img, img', c, nodes) && i < |nodes| && HasName(c)
    ensures NameOf(img', nodes[i]) == NameOf(img, nodes[i])
  {
    forall o: nat | o < 6 ensures NameOf(img', nodes[i])[o] == NameOf(img, nodes[i])[o] {
      assert Field(img', nodes[i], NAME + o) == Field(img, nodes[i], NAME + o);
    }
  }

  /** Where the search for a name ends among the first n blocks. */
  function Named(img: seq<byte>, nodes: seq<nat>, name: seq<byte>, n: nat): (i: nat)
    requires n <= |nodes|
    ensures i <= n && (i < n ==> NameOf(img, nodes[i]) == name) && forall j: nat :: j < i ==> NameOf(img, nodes[j]) != name
  {
    if n == 0 then 0
    else
      var i := Named(img, nodes, name, n - 1);
      if i < n - 1 || NameOf(img, nodes[n - 1]) == name then i else n
  }

  lemma {:induction false} NamedIs(img: seq<byte>, nodes: seq<nat>, name: seq<byte>, n: nat, i: nat)
    requires i < n <= |nodes| && NameOf(img, nodes[i]) == name && forall j: nat :: j < i ==> NameOf(img, nodes[j]) != name
    ensures Named(img, nodes, name, n) == i
  {
  }

  /** The six characters of a name. */
  method ReadName(p: SystemImage, n: nat) returns (t: seq<byte>)
    requires n + NAME + 6 <= p.image.Length
    ensures t == NameOf(p.image[..], n)
  {
    t := [];
    var i := 0;
    while i < 6
      invariant i <= 6 && |t| == i && forall o: nat :: o < i ==> t[o] == Field(p.image[..], n, NAME + o)
    {
      t := t + [p.image[n + NAME + i]];
      i := i + 1;
    }
  }

  /** The search by name; names have six characters and no terminator. */
  method FindNamed(p: SystemImage, c: Kind, name: seq<byte>, ghost live: seq<Area>, ghost nodes: seq<nat>) returns (prev: nat, block: nat, ghost i: nat)
    requires ListOk(p, live, c, nodes) && HasName(c)
    ensures i == Named(p.image[..], nodes, name, |nodes|) && prev == CellOf(c, nodes, i) && block == NodeAt(nodes, i)
  {
    ghost var img := p.image[..];
    prev, i := c.head, 0;
    CellFacts(img, c, nodes, 0);
    block := p.GetW(prev);
    while block != 0
      invariant i <= |nodes| && prev == CellOf(c, nodes, i) && block == NodeAt(nodes, i)
      invariant forall j: nat :: j < i ==> NameOf(img, nodes[j]) != name
      decreases |nodes| - i
    {
      assert i < |nodes|;
      var text := ReadName(p, block);
      if text == name {
        NamedIs(img, nodes, name, |nodes|, i);
        return;
      }
      prev, i := block + c.link, i + 1;
      CellFacts(img, c, nodes, i);
      block := p.GetW(prev);
    }
    CellFacts(img, c, nodes, i);
  }

  /** The name of a block that is not linked yet. */
  method FillName(p: SystemImage, c: Kind, n: nat, name: seq<byte>, ghost live: seq<Area>, ghost nodes: seq<nat>)
    requires ListOk(p, live, c, nodes) && n !in nodes && n != c.owner && Area(n, Round(c.size)) in live && HasName(c) && |name| == 6
    modifies p.image
    ensures ListOk(p, live, c, nodes) && n + c.size <= p.image.Length && NameOf(p.image[..], n) == name
    ensures forall a: nat :: a < p.image.Length && !(n + NAME <= a < n + NAME + 6) ==> p.image[a] == old(p.image[a])
  {
    BlockInside(p, c, n, live, nodes);
    var i := 0;
    while i < 6
      invariant i <= 6 && ListOk(p, live, c, nodes) && n + c.size <= p.image.Length
      invariant forall o: nat :: o < i ==> Field(p.image[..], n, NAME + o) == name[o]
      invariant forall a: nat :: a < p.image.Length && !(n + NAME <= a < n + NAME + 6) ==> p.image[a] == old(p.image[a])
    {
      PutField(p, c, n, NAME + i, name[i], live, nodes);
      i := i + 1;
    }
  }

  lemma BlockInside(p: SystemImage, c: Kind, n: nat, live: seq<Area>, nodes: seq<nat>)
    requires ListOk(p, live, c, nodes) && n !in nodes && n != c.owner && Area(n, Round(c.size)) in live
    ensures n + c.size <= p.image.Length
  {
    PlacedHead(p.image[..], p.head, p.lo, p.hi, p.list);
    FieldOutside(PoolState(p.list, live), c, p.head, p.lo, p.hi, nodes, n, c.size - 1);
  }

  /** The only block of a new name is the new one. */
  lemma NewNameFound(img: seq<byte>, img': seq<byte>, c: Kind, nodes: seq<nat>, i: nat, n: nat, name: seq<byte>)
    requires FieldsKept(img, img', c, nodes) && HasName(c) && i <= |nodes|
    requires Named(img, nodes, name, |nodes|) == |nodes| && NameOf(img', n) == name
    ensures var r := WithNode(nodes, i, n); Named(img', r, name, |r|) == i
  {
    var r := WithNode(nodes, i, n);
    forall j: nat | j < i ensures NameOf(img', r[j]) != name {
      SameName(img, img', c, nodes, j);
    }
    NamedIs(img', r, name, |r|, i);
  }
}
