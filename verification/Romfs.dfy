/** The ROMFS image writer (`mkromfs.py`) and a reader that follows the addresses in an image. */
module RomfsModel {
  import opened Words

  type Byte = b: int | 0 <= b < 256

  type Bytes = seq<Byte>

  /** A file or a folder of the tree. */
  datatype Node = File(name: Bytes, data: Bytes) | Folder(name: Bytes, children: seq<Node>)

  /** `sizeof(struct romfs_dirent)` */
  const DIRENT: nat := 16

  // ----- the writer -----

  function Zeros(n: nat): Bytes { seq(n, _ => 0) }

  /** `bin_name`: padded to a multiple of four, with at least one zero. */
  function BinName(name: Bytes): Bytes { name + Zeros(4 - |name| % 4) }

  function PadData(data: Bytes): Bytes { if |data| % 4 != 0 then data + Zeros(4 - |data| % 4) else data }

  /** A word, the lowest byte first. */
  function Pack(n: nat): (r: Bytes)
    ensures |r| == 4
  {
    [n % 256, n / 256 % 256, n / 0x1_0000 % 256, n / 0x100_0000 % 256]
  }

  function Dirent(tp: nat, name: nat, data: nat, size: nat): (r: Bytes)
    ensures |r| == DIRENT
  {
    Pack(tp) + Pack(name) + Pack(data) + Pack(size)
  }

  function Type(n: Node): nat { if n.File? then 0 else 1 }

  function EntrySize(n: Node): nat { if n.File? then |n.data| else |n.children| }

  /** What is written for a node at an address: the bytes of a file; for a folder the entries of its
      children, followed by their names and data. */
  function BinData(n: Node, base: nat): Bytes
    decreases n, 0
  {
    match n
    case File(_, data) => data
    case Folder(_, cs) => Entries(cs, base + DIRENT * |cs|) + Payload(cs, base + DIRENT * |cs|)
  }

  /** The entries of nodes whose names and data start at `v`. */
  function Entries(cs: seq<Node>, v: nat): Bytes
    decreases cs, 1
  {
    if cs == [] then []
    else Dirent(Type(cs[0]), v, v + |BinName(cs[0].name)|, EntrySize(cs[0])) + Entries(cs[1..], After(cs[0], v))
  }

  function Payload(cs: seq<Node>, v: nat): Bytes
    decreases cs, 1
  {
    if cs == [] then []
    else
      BinName(cs[0].name) + PadData(BinData(cs[0], v + |BinName(cs[0].name)|)) + Payload(cs[1..], After(cs[0], v))
  }

  /** The address after the name and data of a node at `v`. */
  function After(n: Node, v: nat): nat
    decreases n, 1
  {
    v + |BinName(n.name)| + |PadData(BinData(n, v + |BinName(n.name)|))|
  }

  /** Every value that is packed is a 32-bit word; otherwise packing raises an error. */
  ghost predicate Packs(n: Node, base: nat)
    decreases n, 0
  {
    n.Folder? ==> AllPack(n.children, base + DIRENT * |n.children|)
  }

  ghost predicate AllPack(cs: seq<Node>, v: nat)
    decreases cs, 1
  {
    cs != [] ==>
      && Packs(cs[0], v + |BinName(cs[0].name)|)
      && v + |BinName(cs[0].name)| < WORD && EntrySize(cs[0]) < WORD
      && AllPack(cs[1..], After(cs[0], v))
  }

  /** `get_bin_data`: the entry of the root, which is named `/`, its name, and the tree. */
  function Image(tree: Node, base: nat): Bytes {
    var v := base + DIRENT;
    Dirent(1, v, v + 4, EntrySize(tree)) + [47, 0, 0, 0] + BinData(tree, v + 4)
  }

  // ----- the reader -----

  datatype Option<T> = None | Some(value: T)

  /** The bytes at an address of a memory that starts at `base`. */
  function At(mem: Bytes, base: nat, a: nat, n: nat): (r: Option<Bytes>)
    ensures r.Some? ==> |r.value| == n && base <= a
  {
    if base <= a && a + n <= base + |mem| then Some(mem[a - base..a - base + n]) else None
  }

  function Word(s: Bytes): nat
    requires |s| == 4
  {
    (s[0] as int) + 0x100 * (s[1] as int) + 0x1_0000 * (s[2] as int) + 0x100_0000 * (s[3] as int)
  }

  /** The bytes up to the first zero. */
  function Text(s: Bytes): Option<Bytes> {
    if s == [] then None
    else if s[0] == 0 then Some([])
    else
      match Text(s[1..])
      case None => None
      case Some(t) => Some([s[0]] + t)
  }

  function TextAt(mem: Bytes, base: nat, a: nat): Option<Bytes> {
    if base <= a <= base + |mem| then Text(mem[a - base..]) else None
  }

  predicate Unit(align: nat) { align in {1, 2, 4} }

  predicate Aligned(a: nat, align: nat)
    requires Unit(align)
  {
    a % align == 0
  }

  /** The nodes of a table of `n` entries.  An entry is refused if it, its name or its data is not aligned
      to `align` or not in the memory, if it is of no known type, or if its data does not lie behind it. */
  function ReadTable(mem: Bytes, base: nat, table: nat, n: nat, align: nat): Option<seq<Node>>
    requires Unit(align)
    decreases base + |mem| - table
  {
    if n == 0 then Some([])
    else
      match At(mem, base, table, DIRENT)
      case None => None
      case Some(e) =>
        var tp, name, data, size := Word(e[..4]), Word(e[4..8]), Word(e[8..12]), Word(e[12..16]);
        match TextAt(mem, base, name)
        case None => None
        case Some(text) =>
          if !Aligned(table, align) || !Aligned(name, align) || !Aligned(data, align) || data <= table || data > base + |mem| || tp > 1 then None
          else
            match ReadTable(mem, base, table + DIRENT, n - 1, align)
            case None => None
            case Some(rest) =>
              if tp == 0 then
                match At(mem, base, data, size)
                case None => None
                case Some(bytes) => Some([File(text, bytes)] + rest)
              else
                match ReadTable(mem, base, data, size, align)
                case None => None
                case Some(cs) => Some([Folder(text, cs)] + rest)
  }

  // ----- packing -----

  lemma PackWord(n: nat)
    requires n < WORD
    ensures Word(Pack(n)) == n
  {
    var a, b, c := n / 256, n / 0x1_0000, n / 0x100_0000;
    assert b == a / 256 && c == b / 256 && c < 256;
  }

  lemma DirentFields(tp: nat, name: nat, data: nat, size: nat)
    requires tp < WORD && name < WORD && data < WORD && size < WORD
    ensures var e := Dirent(tp, name, data, size);
      Word(e[..4]) == tp && Word(e[4..8]) == name && Word(e[8..12]) == data && Word(e[12..16]) == size
  {
    hide Word, Pack;
    var e := Dirent(tp, name, data, size);
    assert e[..4] == Pack(tp) && e[4..8] == Pack(name) && e[8..12] == Pack(data) && e[12..16] == Pack(size);
    PackWord(tp);
    PackWord(name);
    PackWord(data);
    PackWord(size);
  }

  // ----- names -----

  /** File names have no zero byte. */
  ghost predicate Named(n: Node) {
    0 !in n.name && (n.Folder? ==> AllNamed(n.children))
  }

  ghost predicate AllNamed(cs: seq<Node>) { forall i :: 0 <= i < |cs| ==> Named(cs[i]) }

  lemma {:induction false} TextOf(name: Bytes, rest: Bytes)
    requires 0 !in name && rest != [] && rest[0] == 0
    ensures Text(name + rest) == Some(name)
  {
    if name == [] {
      assert name + rest == rest;
    } else {
      assert (name + rest)[0] == name[0] && (name + rest)[1..] == name[1..] + rest;
      TextOf(name[1..], rest);
      assert [name[0]] + name[1..] == name;
    }
  }

  // ----- the image in memory -----

  /** The memory holds `s` at address `a`. */
  ghost predicate Holds(mem: Bytes, base: nat, a: nat, s: Bytes) { base <= a && a + |s| <= base + |mem| && mem[a - base..a - base + |s|] == s }

  lemma HoldsSplit(mem: Bytes, base: nat, a: nat, s: Bytes, t: Bytes)
    requires Holds(mem, base, a, s + t)
    ensures Holds(mem, base, a, s) && Holds(mem, base, a + |s|, t)
  {
    var m := mem[a - base..a - base + |s + t|];
    assert m[..|s|] == s && m[|s|..] == t;
    assert mem[a - base..a - base + |s|] == m[..|s|] && mem[a - base + |s|..a - base + |s| + |t|] == m[|s|..];
  }

  lemma NameHeld(mem: Bytes, base: nat, a: nat, name: Bytes)
    requires Holds(mem, base, a, BinName(name)) && 0 !in name
    ensures TextAt(mem, base, a) == Some(name)
  {
    var s := mem[a - base..];
    var rest := s[|name|..];
    assert s[..|BinName(name)|] == BinName(name);
    assert s == name + rest && rest[0] == BinName(name)[|name|] == 0;
    TextOf(name, rest);
  }

  lemma DataHeld(mem: Bytes, base: nat, a: nat, data: Bytes)
    requires Holds(mem, base, a, PadData(data))
    ensures Holds(mem, base, a, data) && At(mem, base, a, |data|) == Some(data)
  {
    if |data| % 4 != 0 { HoldsSplit(mem, base, a, data, Zeros(4 - |data| % 4)); }
  }

  lemma Padded(name: Bytes, data: Bytes)
    ensures |BinName(name)| % 4 == 0 && |PadData(data)| % 4 == 0 && |BinName(name)| > 0
  {
  }

  lemma {:induction false} EntriesLength(cs: seq<Node>, v: nat)
    ensures |Entries(cs, v)| == DIRENT * |cs|
  {
    if cs != [] { EntriesLength(cs[1..], After(cs[0], v)); }
  }

  /** An entry of a file. */
  lemma FileRead(mem: Bytes, base: nat, t: nat, n: nat, e: Bytes, text: Bytes, bytes: Bytes, rest: seq<Node>, align: nat)
    requires Unit(align) && At(mem, base, t, DIRENT) == Some(e) && Word(e[..4]) == 0 && n > 0
    requires var name, data, size := Word(e[4..8]), Word(e[8..12]), Word(e[12..16]);
      && TextAt(mem, base, name) == Some(text) && At(mem, base, data, size) == Some(bytes)
      && Aligned(t, align) && Aligned(name, align) && Aligned(data, align) && t < data <= base + |mem|
    requires t + DIRENT <= base + |mem| && ReadTable(mem, base, t + DIRENT, n - 1, align) == Some(rest)
    ensures ReadTable(mem, base, t, n, align) == Some([File(text, bytes)] + rest)
  {
    hide Word, TextAt, At, Aligned;
  }

  /** An entry of a folder. */
  lemma FolderRead(mem: Bytes, base: nat, t: nat, n: nat, e: Bytes, text: Bytes, cs: seq<Node>, rest: seq<Node>, align: nat)
    requires Unit(align) && At(mem, base, t, DIRENT) == Some(e) && Word(e[..4]) == 1 && n > 0
    requires var name, data, size := Word(e[4..8]), Word(e[8..12]), Word(e[12..16]);
      && TextAt(mem, base, name) == Some(text) && ReadTable(mem, base, data, size, align) == Some(cs)
      && Aligned(t, align) && Aligned(name, align) && Aligned(data, align) && t < data <= base + |mem|
    requires t + DIRENT <= base + |mem| && ReadTable(mem, base, t + DIRENT, n - 1, align) == Some(rest)
    ensures ReadTable(mem, base, t, n, align) == Some([Folder(text, cs)] + rest)
  {
    hide Word, TextAt, At, Aligned;
  }

  /** The table and the payload of a folder, in its data. */
  lemma FolderHeld(mem: Bytes, base: nat, d: nat, c: Node)
    requires c.Folder? && Holds(mem, base, d, PadData(BinData(c, d)))
    ensures var v := d + DIRENT * |c.children|; Holds(mem, base, d, Entries(c.children, v)) && Holds(mem, base, v, Payload(c.children, v))
  {
    hide Holds, PadData, Entries, Payload;
    var v := d + DIRENT * |c.children|;
    DataHeld(mem, base, d, BinData(c, d));
    EntriesLength(c.children, v);
    HoldsSplit(mem, base, d, Entries(c.children, v), Payload(c.children, v));
  }

  /** The first entry, name and data, and the rest. */
  lemma FirstHeld(mem: Bytes, base: nat, cs: seq<Node>, t: nat, v: nat)
    requires cs != [] && Holds(mem, base, t, Entries(cs, v)) && Holds(mem, base, v, Payload(cs, v))
    ensures var c, w := cs[0], After(cs[0], v); var d := v + |BinName(c.name)|;
      && Holds(mem, base, t, Dirent(Type(c), v, d, EntrySize(c))) && Holds(mem, base, t + DIRENT, Entries(cs[1..], w))
      && Holds(mem, base, v, BinName(c.name)) && Holds(mem, base, d, PadData(BinData(c, d))) && Holds(mem, base, w, Payload(cs[1..], w))
  {
    hide Holds, PadData, BinName, BinData, Dirent;
    var c, w := cs[0], After(cs[0], v);
    var name, data := BinName(c.name), BinData(c, v + |BinName(c.name)|);
    HoldsSplit(mem, base, t, Dirent(Type(c), v, v + |name|, EntrySize(c)), Entries(cs[1..], w));
    HoldsSplit(mem, base, v, name + PadData(data), Payload(cs[1..], w));
    HoldsSplit(mem, base, v, name, PadData(data));
  }

  /** Reading back what was written: the entries at `t`, the names and data at `v`. */
  lemma {:induction false} ReadsBack(mem: Bytes, base: nat, cs: seq<Node>, t: nat, v: nat, align: nat)
    requires Unit(align)
    requires Holds(mem, base, t, Entries(cs, v)) && Holds(mem, base, v, Payload(cs, v))
    requires AllNamed(cs) && AllPack(cs, v) && Aligned(t, align) && Aligned(v, align) && t + DIRENT * |cs| <= v
    ensures ReadTable(mem, base, t, |cs|, align) == Some(cs)
    decreases cs
  {
    hide Dirent, Word, Text, BinName, PadData, At, TextAt, Holds, Pack, ReadTable, Entries, Payload, BinData, Aligned;
    if cs == [] {
      NothingRead(mem, base, t, align);
    } else {
      var c, rest, w := cs[0], cs[1..], After(cs[0], v);
      var d := v + |BinName(c.name)|;
      var data := BinData(c, d);
      FirstHeld(mem, base, cs, t, v);
      Padded(c.name, data);
      InMemory(mem, base, d, PadData(data));
      InMemory(mem, base, t + DIRENT, Entries(rest, w));
      StaysAligned(v, |BinName(c.name)|, align);
      StaysAligned(d, |PadData(data)|, align);
      BehindTable(t, 1, align);
      ReadsBack(mem, base, rest, t + DIRENT, w, align);
      DirentRead(mem, base, t, Type(c), v, d, EntrySize(c));
      assert Named(c);
      NameHeld(mem, base, v, c.name);
      assert cs == [c] + rest;
      var e := Dirent(Type(c), v, d, EntrySize(c));
      if c.File? {
        FileData(c, d);
        DataHeld(mem, base, d, c.data);
        FileRead(mem, base, t, |cs|, e, c.name, c.data, rest, align);
      } else {
        FolderHeld(mem, base, d, c);
        BehindTable(d, |c.children|, align);
        ReadsBack(mem, base, c.children, d, d + DIRENT * |c.children|, align);
        FolderRead(mem, base, t, |cs|, e, c.name, c.children, rest, align);
      }
    }
  }

  lemma StaysAligned(a: nat, n: nat, align: nat)
    requires Unit(align) && Aligned(a, align) && n % 4 == 0
    ensures Aligned(a + n, align)
  {
  }

  lemma BehindTable(a: nat, n: nat, align: nat)
    requires Unit(align) && Aligned(a, align)
    ensures Aligned(a + DIRENT * n, align)
  {
    StaysAligned(a, DIRENT * n, align);
  }

  lemma NothingRead(mem: Bytes, base: nat, t: nat, align: nat)
    requires Unit(align)
    ensures ReadTable(mem, base, t, 0, align) == Some([])
  {
  }

  lemma FileData(c: Node, d: nat)
    requires c.File?
    ensures BinData(c, d) == c.data
  {
  }

  lemma InMemory(mem: Bytes, base: nat, a: nat, s: Bytes)
    requires Holds(mem, base, a, s)
    ensures base <= a <= base + |mem|
  {
  }

  lemma DirentRead(mem: Bytes, base: nat, t: nat, tp: nat, name: nat, data: nat, size: nat)
    requires Holds(mem, base, t, Dirent(tp, name, data, size)) && tp < WORD && name < WORD && data < WORD && size < WORD
    ensures At(mem, base, t, DIRENT) == Some(Dirent(tp, name, data, size))
    ensures var e := Dirent(tp, name, data, size);
      Word(e[..4]) == tp && Word(e[4..8]) == name && Word(e[8..12]) == data && Word(e[12..16]) == size
  {
    hide Dirent;
    DirentFields(tp, name, data, size);
  }

  // ----- whole images -----

  /** What a folder is written as is a multiple of four long, so padding does not change it. */
  lemma {:induction false} PayloadAligned(cs: seq<Node>, v: nat)
    ensures |Payload(cs, v)| % 4 == 0
  {
    hide BinName, PadData;
    if cs != [] {
      Padded(cs[0].name, BinData(cs[0], v + |BinName(cs[0].name)|));
      PayloadAligned(cs[1..], After(cs[0], v));
    }
  }

  lemma FolderAligned(n: Node, base: nat)
    requires n.Folder?
    ensures PadData(BinData(n, base)) == BinData(n, base)
  {
    hide PadData, Entries, Payload;
    EntriesLength(n.children, base + DIRENT * |n.children|);
    PayloadAligned(n.children, base + DIRENT * |n.children|);
    PadNothing(BinData(n, base));
  }

  lemma PadNothing(s: Bytes)
    requires |s| % 4 == 0
    ensures PadData(s) == s
  {
  }

  function Root(tree: Node): Node
    requires tree.Folder?
  {
    Folder([47], tree.children)
  }

  lemma ImageIsTable(tree: Node, base: nat)
    requires tree.Folder?
    ensures Image(tree, base) == Entries([Root(tree)], base + DIRENT) + Payload([Root(tree)], base + DIRENT)
  {
    hide Dirent, PadData;
    var v := base + DIRENT;
    var r := Root(tree);
    assert BinName(r.name) == [47, 0, 0, 0];
    FolderAligned(r, v + 4);
    assert BinData(r, v + 4) == BinData(tree, v + 4);
    assert Entries([r], v) == Dirent(1, v, v + 4, EntrySize(tree)) + [];
    assert Payload([r], v) == BinName(r.name) + PadData(BinData(r, v + 4)) + [];
  }

  /** The values of the root entry and of the tree are words. */
  ghost predicate ImagePacks(tree: Node, base: nat)
    requires tree.Folder?
  {
    AllPack([Root(tree)], base + DIRENT)
  }

  /** Reading an image back gives the tree, under the root's name, whatever the base (`align` 1); and all
      addresses in it are aligned to two or to four exactly when the base is. */
  lemma ImageReadsBack(tree: Node, base: nat, align: nat)
    requires tree.Folder? && AllNamed(tree.children) && ImagePacks(tree, base) && Unit(align)
    ensures ReadTable(Image(tree, base), base, base, 1, align) == Some([Root(tree)]) <==> Aligned(base, align)
  {
    hide Entries, Payload, Image, AllPack;
    if Aligned(base, align) {
      var v, mem, cs := base + DIRENT, Image(tree, base), [Root(tree)];
      ImageIsTable(tree, base);
      assert Holds(mem, base, base, mem) by { assert mem[0..|mem|] == mem; }
      EntriesLength(cs, v);
      HoldsSplit(mem, base, base, Entries(cs, v), Payload(cs, v));
      assert AllNamed(cs);
      StaysAligned(base, DIRENT, align);
      ReadsBack(mem, base, cs, base, v, align);
    }
  }

  /** Different trees have different images. */
  lemma ImagesDiffer(a: Node, b: Node, base: nat)
    requires a.Folder? && b.Folder? && AllNamed(a.children) && AllNamed(b.children) && ImagePacks(a, base) && ImagePacks(b, base)
    requires Image(a, base) == Image(b, base)
    ensures a.children == b.children
  {
    hide Image, ReadTable, AllPack;
    assert Aligned(base, 1);
    ImageReadsBack(a, base, 1);
    ImageReadsBack(b, base, 1);
  }

  lemma {:induction false} AllFit(cs: seq<Node>, v: nat)
    requires v + |Payload(cs, v)| < WORD
    ensures AllPack(cs, v)
    decreases cs, 1
  {
    if cs != [] {
      var c := cs[0];
      var d := v + |BinName(c.name)|;
      hide BinName;
      assert |PadData(BinData(c, d))| >= |BinData(c, d)|;
      NodeFits(c, d);
      AllFit(cs[1..], After(c, v));
    }
  }

  lemma {:induction false} NodeFits(c: Node, d: nat)
    requires d + |BinData(c, d)| < WORD
    ensures Packs(c, d) && EntrySize(c) < WORD
    decreases c, 0
  {
    if c.Folder? {
      var v := d + DIRENT * |c.children|;
      EntriesLength(c.children, v);
      AllFit(c.children, v);
    }
  }

  /** No image that ends below 4 GB makes packing fail. */
  lemma ImageFits(tree: Node, base: nat)
    requires tree.Folder? && base + |Image(tree, base)| < WORD
    ensures ImagePacks(tree, base)
  {
    hide Image, Payload;
    ImageIsTable(tree, base);
    EntriesLength([Root(tree)], base + DIRENT);
    AllFit([Root(tree)], base + DIRENT);
  }
}

module Romfs {
  import opened Words
  import opened RomfsModel

  /** The bytes, or the error that packing raises. */
  datatype Result = Ok(data: Bytes) | StructError

  /** `bytes().join` */
  function Join(l: seq<Bytes>): Bytes { if l == [] then [] else l[0] + Join(l[1..]) }

  lemma {:induction false} JoinMore(l: seq<Bytes>, x: Bytes)
    ensures Join(l + [x]) == Join(l) + x
  {
    if l == [] {
      assert [x][1..] == [];
    } else {
      assert (l + [x])[1..] == l[1..] + [x];
      JoinMore(l[1..], x);
    }
  }

  lemma JoinTwo(l: seq<Bytes>, x: Bytes, y: Bytes)
    ensures Join(l + [x, y]) == Join(l) + x + y
  {
    JoinMore(l, x);
    JoinMore(l + [x], y);
    assert l + [x, y] == l + [x] + [y];
  }

  /** `Struct('IIII').pack` */
  method PackDirent(tp: nat, name: nat, data: nat, size: nat) returns (r: Result)
    requires tp < 2
    ensures r == if name < WORD && data < WORD && size < WORD then Ok(Dirent(tp, name, data, size)) else StructError
  {
    if name >= WORD || data >= WORD || size >= WORD { return StructError; }
    r := Ok(Pack(tp) + Pack(name) + Pack(data) + Pack(size));
  }

  /** What is written for a folder, and whether packing succeeds. */
  lemma FolderIs(n: Node, base: nat)
    requires n.Folder?
    ensures var v := base + DIRENT * |n.children|;
      BinData(n, base) == Entries(n.children, v) + Payload(n.children, v) && (Packs(n, base) <==> AllPack(n.children, v))
  {
    hide Entries, Payload, AllPack;
  }

  /** What one round of the loop writes. */
  lemma OneChild(cs: seq<Node>, i: nat, v: nat)
    requires i < |cs|
    ensures var c, w := cs[i], After(cs[i], v); var d := v + |BinName(c.name)|;
      && Entries(cs[i..], v) == Dirent(Type(c), v, d, EntrySize(c)) + Entries(cs[i + 1..], w)
      && Payload(cs[i..], v) == BinName(c.name) + PadData(BinData(c, d)) + Payload(cs[i + 1..], w)
      && (AllPack(cs[i..], v) <==> Packs(c, d) && d < WORD && EntrySize(c) < WORD && AllPack(cs[i + 1..], w))
      && w == d + |PadData(BinData(c, d))|
  {
    hide Dirent, BinName, PadData;
    assert cs[i..][0] == cs[i] && cs[i..][1..] == cs[i + 1..];
  }

  lemma NoChildren(v: nat)
    ensures Entries([], v) == [] && Payload([], v) == [] && AllPack([], v)
  {
  }

  lemma FileIs(n: Node, base: nat)
    requires n.File?
    ensures BinData(n, base) == n.data && Packs(n, base)
  {
  }

  /** `bin_data` of a file or a folder */
  method WriteNode(n: Node, base: nat) returns (r: Result)
    ensures r == if Packs(n, base) then Ok(BinData(n, base)) else StructError
    decreases n
  {
    hide Dirent, BinName, PadData, Entries, Payload, AllPack, Packs, BinData, Join, After;
    if n.File? {
      FileIs(n, base);
      return Ok(n.data);
    }
    FolderIs(n, base);
    var cs := n.children;
    var dLi, pLi: seq<Bytes> := [], [];
    var vLen: nat := base + DIRENT * |cs|;
    ghost var start := vLen;
    var i := 0;
    assert cs[0..] == cs;
    NoLists();
    while i < |cs|
      invariant i <= |cs|
      invariant Entries(cs, start) == Join(dLi) + Entries(cs[i..], vLen)
      invariant Payload(cs, start) == Join(pLi) + Payload(cs[i..], vLen)
      invariant AllPack(cs, start) <==> AllPack(cs[i..], vLen)
    {
      var c := cs[i];
      OneChild(cs, i, vLen);
      var name := BinName(c.name);
      var nameAddr := vLen;
      vLen := vLen + |name|;
      var written := WriteNode(c, vLen);
      if written.StructError? { return StructError; }
      var dataAddr := vLen;
      var data := PadData(written.data);
      vLen := vLen + |data|;
      var entry := PackDirent(Type(c), nameAddr, dataAddr, EntrySize(c));
      if entry.StructError? { return StructError; }
      JoinMore(dLi, entry.data);
      JoinTwo(pLi, name, data);
      dLi := dLi + [entry.data];
      pLi := pLi + [name, data];
      i := i + 1;
    }
    NoChildren(vLen);
    assert cs[i..] == [] && Join(dLi) + [] == Join(dLi) && Join(pLi) + [] == Join(pLi);
    r := Ok(Join(dLi) + Join(pLi));
  }

  lemma NoLists()
    ensures Join([]) == [] && forall s: Bytes :: [] + s == s
  {
  }

  /** `get_bin_data` */
  method WriteImage(tree: Node, base: nat) returns (r: Result)
    requires tree.Folder?
    ensures r == if ImagePacks(tree, base) then Ok(Image(tree, base)) else StructError
  {
    hide Dirent, BinData, Packs;
    ImagePacksIs(tree, base);
    var v := base + DIRENT;
    var entry := PackDirent(1, v, v + 4, EntrySize(tree));
    if entry.StructError? { return StructError; }
    var data := WriteNode(tree, v + 4);
    if data.StructError? { return StructError; }
    r := Ok(entry.data + [47, 0, 0, 0] + data.data);
  }

  lemma ImagePacksIs(tree: Node, base: nat)
    requires tree.Folder?
    ensures ImagePacks(tree, base) <==> base + DIRENT + 4 < WORD && EntrySize(tree) < WORD && Packs(tree, base + DIRENT + 4)
  {
    hide BinData, Packs, AllPack, Entries, Payload, PadData, Dirent, After;
    assert |BinName([47])| == 4;
    NoChildren(After(Root(tree), base + DIRENT));
    FolderIs(tree, base + DIRENT + 4);
    FolderIs(Root(tree), base + DIRENT + 4);
    OneChild([Root(tree)], 0, base + DIRENT);
    assert [Root(tree)][0..] == [Root(tree)] && [Root(tree)][1..] == [];
  }
}
