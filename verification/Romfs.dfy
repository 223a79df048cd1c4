/**
 Building a romfs image (rt-thread/tools/mkromfs.py, binary output): a directory becomes its entries,
 four little-endian words each, followed by the names and contents of its children, depth first.
 */
module Romfs {
  import opened Basics

  const WORD: nat := 0x1_0000_0000
  const ENTRY: nat := 16

  /** A name is a sequence of characters, each given by its UTF-8 bytes. */
  type Name = seq<seq<Byte>>

  datatype Node = File(name: Name, data: seq<Byte>) | Folder(name: Name, children: seq<Node>)

  // ------------------------------------------------------------------ names and padding

  function Utf8(name: Name): seq<Byte> {
    if name == [] then [] else name[0] + Utf8(name[1..])
  }

  function Zeros(n: nat): (z: seq<Byte>)
    ensures |z| == n && forall i :: 0 <= i < n ==> z[i] == 0
  {
    if n == 0 then [] else [0] + Zeros(n - 1)
  }

  /** `bin_name`: the padding, one zero at least, is computed from the number of characters. */
  function BinName(name: Name): seq<Byte> {
    Utf8(name) + Zeros(4 - |name| % 4)
  }

  /** Contents are padded by their number of bytes. */
  function Padded(data: seq<Byte>): seq<Byte> {
    if |data| % 4 != 0 then data + Zeros(4 - |data| % 4) else data
  }

  // ------------------------------------------------------------------ the image

  function Word(n: nat): (w: seq<Byte>)
    requires n < WORD
    ensures |w| == 4
  {
    [n % 0x100, n / 0x100 % 0x100, n / 0x1_0000 % 0x100, n / 0x100_0000]
  }

  function EntrySize(c: Node): nat {
    if c.File? then |c.data| else |c.children|
  }

  /** The contents of a file, or the entries and payload of a directory at address `base`. */
  function Contents(c: Node, base: nat): seq<Byte>
    requires c.Folder? ==> Fits(c.children, base + ENTRY * |c.children|)
    decreases c
  {
    match c
    case File(_, data) => data
    case Folder(_, children) => FolderData(children, base)
  }

  function FolderData(children: seq<Node>, base: nat): seq<Byte>
    requires Fits(children, base + ENTRY * |children|)
    decreases children, 2
  {
    Entries(children, base + ENTRY * |children|) + Payload(children, base + ENTRY * |children|)
  }

  /** Every word to be packed is below 2^32: else packing raises an error. */
  predicate Fits(children: seq<Node>, v: nat)
    decreases children, 0
  {
    if children == [] then true
    else
      var c, at := children[0], v + |BinName(children[0].name)|;
      && v < WORD && at < WORD && EntrySize(c) < WORD
      && (c.Folder? ==> Fits(c.children, at + ENTRY * |c.children|))
      && Fits(children[1..], at + |Padded(Contents(c, at))|)
  }

  /** The entries of children whose payload begins at `v`. */
  function Entries(children: seq<Node>, v: nat): (e: seq<Byte>)
    requires Fits(children, v)
    ensures |e| == ENTRY * |children|
    decreases children, 1
  {
    if children == [] then []
    else
      var c, at := children[0], v + |BinName(children[0].name)|;
      Word(if c.File? then 0 else 1) + Word(v) + Word(at) + Word(EntrySize(c))
      + Entries(children[1..], at + |Padded(Contents(c, at))|)
  }

  /** Their names and contents. */
  function Payload(children: seq<Node>, v: nat): seq<Byte>
    requires Fits(children, v)
    decreases children, 1
  {
    if children == [] then []
    else
      var c, at := children[0], v + |BinName(children[0].name)|;
      BinName(c.name) + Padded(Contents(c, at)) + Payload(children[1..], at + |Padded(Contents(c, at))|)
  }

  // ------------------------------------------------------------------ following the image

  /** What a reader of an image sees. */
  datatype Found = FoundFile(name: seq<Byte>, data: seq<Byte>) | FoundFolder(name: seq<Byte>, children: seq<Found>)

  function ReadWord(img: seq<Byte>, i: nat): nat
    requires i + 4 <= |img|
  {
    (img[i] as int) + 0x100 * (img[i + 1] as int) + 0x1_0000 * (img[i + 2] as int) + 0x100_0000 * (img[i + 3] as int)
  }

  /** The bytes up to the next zero. */
  function CString(img: seq<Byte>, i: nat): seq<Byte>
    decreases |img| - i
  {
    if i < |img| && img[i] != 0 then [img[i]] + CString(img, i + 1) else []
  }

  /** The file or directory whose entry is at address `addr`; the image begins at address `base`. */
  function ReadEntry(img: seq<Byte>, base: nat, addr: nat): Option<Found>
    requires base <= addr <= base + |img|
    decreases base + |img| - addr, 0
  {
    var i := addr - base;
    if i + ENTRY > |img| then None
    else
      var kind, name := ReadWord(img, i), ReadWord(img, i + 4);
      var data, size := ReadWord(img, i + 8), ReadWord(img, i + 12);
      if name < base || data < base then None
      else if kind == 0 && data + size <= base + |img| then
        Some(FoundFile(CString(img, name - base), img[data - base..data - base + size]))
      else if kind == 1 && addr < data <= base + |img| then
        match ReadEntries(img, base, data, size)
        case None => None
        case Some(children) => Some(FoundFolder(CString(img, name - base), children))
      else None
  }

  /** `n` entries one after the other. */
  function ReadEntries(img: seq<Byte>, base: nat, addr: nat, n: nat): Option<seq<Found>>
    requires base <= addr <= base + |img|
    decreases base + |img| - addr, 1
  {
    if n == 0 then Some([])
    else if addr + ENTRY > base + |img| then None
    else
      match ReadEntry(img, base, addr)
      case None => None
      case Some(first) =>
        match ReadEntries(img, base, addr + ENTRY, n - 1)
        case None => None
        case Some(rest) => Some([first] + rest)
  }

  // ------------------------------------------------------------------ the round trip

  /** The tree as a reader should see it. */
  function Seen(c: Node): Found {
    match c
    case File(name, data) => FoundFile(Utf8(name), data)
    case Folder(name, children) => FoundFolder(Utf8(name), SeenAll(children))
  }

  function SeenAll(children: seq<Node>): seq<Found> {
    if children == [] then [] else [Seen(children[0])] + SeenAll(children[1..])
  }

  /** File names hold no zero bytes. */
  predicate NoZeros(name: Name) {
    forall i, j :: 0 <= i < |name| && 0 <= j < |name[i]| ==> name[i][j] != 0
  }

  predicate NamesGood(children: seq<Node>)
    decreases children
  {
    children == []
    || (NoZeros(children[0].name)
        && (children[0].Folder? ==> NamesGood(children[0].children)) && NamesGood(children[1..]))
  }

  /** The image holds the bytes `s` at address `addr`. */
  predicate At(img: seq<Byte>, base: nat, addr: nat, s: seq<Byte>) {
    base <= addr && addr - base + |s| <= |img| && img[addr - base..addr - base + |s|] == s
  }

  lemma AtSplit(img: seq<Byte>, base: nat, addr: nat, a: seq<Byte>, b: seq<Byte>)
    requires At(img, base, addr, a + b)
    ensures At(img, base, addr, a) && At(img, base, addr + |a|, b)
  {
    var i := addr - base;
    assert a == (a + b)[..|a|] && b == (a + b)[|a|..];
    assert img[i..i + |a|] == img[i..i + |a + b|][..|a|];
    assert img[i + |a|..i + |a| + |b|] == img[i..i + |a + b|][|a|..];
  }

  lemma WordRead(img: seq<Byte>, base: nat, addr: nat, n: nat)
    requires n < WORD && At(img, base, addr, Word(n))
    ensures ReadWord(img, addr - base) == n
  {
    var i, w := addr - base, Word(n);
    assert forall k :: 0 <= k < 4 ==> img[i + k] == img[i..i + 4][k] == w[k];
    Digits(n);
  }

  lemma Digits(n: nat)
    requires n < WORD
    ensures n == n % 0x100 + 0x100 * (n / 0x100 % 0x100) + 0x1_0000 * (n / 0x1_0000 % 0x100)
                 + 0x100_0000 * (n / 0x100_0000)
  {
    assert n == 0x100 * (n / 0x100) + n % 0x100;
    assert n / 0x100 == 0x100 * (n / 0x1_0000) + n / 0x100 % 0x100;
    assert n / 0x1_0000 == 0x100 * (n / 0x100_0000) + n / 0x1_0000 % 0x100;
  }

  lemma {:induction false} NameRead(img: seq<Byte>, base: nat, addr: nat, s: seq<Byte>, n: nat)
    requires At(img, base, addr, s + Zeros(n)) && n > 0 && forall i :: 0 <= i < |s| ==> s[i] != 0
    ensures CString(img, addr - base) == s
    decreases s
  {
    var i := addr - base;
    assert img[i] == img[i..i + |s| + n][0] == (s + Zeros(n))[0];
    if s != [] {
      AtSplit(img, base, addr, [s[0]], s[1..] + Zeros(n)) by {
        assert [s[0]] + (s[1..] + Zeros(n)) == s + Zeros(n);
      }
      NameRead(img, base, addr + 1, s[1..], n);
    }
  }

  lemma {:induction false} Utf8NoZeros(name: Name)
    requires NoZeros(name)
    ensures forall i :: 0 <= i < |Utf8(name)| ==> Utf8(name)[i] != 0
  {
    if name != [] {
      Utf8NoZeros(name[1..]);
    }
  }

  /** Where the contents of the first child go, and where the next child begins. */
  function DataAt(children: seq<Node>, v: nat): nat
    requires children != []
  {
    v + |BinName(children[0].name)|
  }

  function NextAt(children: seq<Node>, v: nat): nat
    requires children != [] && Fits(children, v)
  {
    DataAt(children, v) + |Padded(Contents(children[0], DataAt(children, v)))|
  }

  /** The definitions above, one child at a time. */
  lemma Unfolded(children: seq<Node>, v: nat)
    requires children != [] && Fits(children, v)
    ensures var c, at := children[0], DataAt(children, v);
            && v < WORD && at < WORD && EntrySize(c) < WORD && at > v
            && (c.Folder? ==> Fits(c.children, at + ENTRY * |c.children|))
            && Fits(children[1..], NextAt(children, v))
            && Entries(children, v) == Word(if c.File? then 0 else 1) + Word(v) + Word(at) + Word(EntrySize(c))
                                       + Entries(children[1..], NextAt(children, v))
            && Payload(children, v)
               == BinName(c.name) + Padded(Contents(c, at)) + Payload(children[1..], NextAt(children, v))
  {
  }

  /** Following the entries of a directory gives its children, in order, with all they hold. */
  lemma {:induction false} ReadsBack(img: seq<Byte>, base: nat, addr: nat, v: nat, children: seq<Node>)
    requires Fits(children, v) && NamesGood(children) && addr + ENTRY * |children| <= v
    requires At(img, base, addr, Entries(children, v)) && At(img, base, v, Payload(children, v))
    ensures base <= addr <= base + |img| && ReadEntries(img, base, addr, |children|) == Some(SeenAll(children))
    decreases children, 0
  {
    hide Fits, Entries, Payload, Contents, BinName, Padded, DataAt, NextAt, At, ReadEntry;
    AtRange(img, base, addr, Entries(children, v));
    if children != [] {
      var c, rest, at := children[0], children[1..], DataAt(children, v);
      Unfolded(children, v);
      EntryRead(img, base, addr, v, children);
      AtSplit(img, base, v, BinName(c.name) + Padded(Contents(c, at)), Payload(rest, NextAt(children, v)));
      AtSplit(img, base, v, BinName(c.name), Padded(Contents(c, at)));
      NameLength(children, v);
      assert addr + ENTRY + ENTRY * |rest| == addr + ENTRY * |children|;
      ReadsBack(img, base, addr + ENTRY, NextAt(children, v), rest);
      ChildRead(img, base, addr, v, c, at);
    }
  }

  lemma NameLength(children: seq<Node>, v: nat)
    requires children != [] && Fits(children, v)
    ensures DataAt(children, v) == v + |BinName(children[0].name)|
    ensures NextAt(children, v) == DataAt(children, v) + |Padded(Contents(children[0], DataAt(children, v)))|
    ensures NextAt(children, v) >= DataAt(children, v) > v
  {
  }

  lemma AtRange(img: seq<Byte>, base: nat, addr: nat, s: seq<Byte>)
    requires At(img, base, addr, s)
    ensures base <= addr && addr + |s| <= base + |img|
  {
  }

  /** Four words in a row, then anything. */
  lemma FourWords(img: seq<Byte>, base: nat, addr: nat, kind: nat, name: nat, data: nat, size: nat, rest: seq<Byte>)
    requires kind < WORD && name < WORD && data < WORD && size < WORD
    requires At(img, base, addr, Word(kind) + Word(name) + Word(data) + Word(size) + rest)
    ensures EntryIs(img, base, addr, kind, name, data, size) && At(img, base, addr + ENTRY, rest)
  {
    hide At, ReadWord, Word;
    var k, a, b, d := Word(kind), Word(name), Word(data), Word(size);
    assert k + a + b + d + rest == k + (a + (b + (d + rest)));
    AtRange(img, base, addr, k + a + b + d + rest);
    AtSplit(img, base, addr, k, a + (b + (d + rest)));
    AtSplit(img, base, addr + 4, a, b + (d + rest));
    AtSplit(img, base, addr + 8, b, d + rest);
    AtSplit(img, base, addr + 12, d, rest);
    WordRead(img, base, addr, kind);
    WordRead(img, base, addr + 4, name);
    WordRead(img, base, addr + 8, data);
    WordRead(img, base, addr + 12, size);
  }

  /** The words of the first entry. */
  lemma EntryRead(img: seq<Byte>, base: nat, addr: nat, v: nat, children: seq<Node>)
    requires Fits(children, v) && children != [] && At(img, base, addr, Entries(children, v))
    ensures var c, at := children[0], DataAt(children, v);
            && EntryIs(img, base, addr, if c.File? then 0 else 1, v, at, EntrySize(c))
            && Fits(children[1..], NextAt(children, v))
            && At(img, base, addr + ENTRY, Entries(children[1..], NextAt(children, v)))
  {
    hide Fits, Entries, Payload, Contents, BinName, Padded, DataAt, NextAt, At, ReadWord, Word, EntryIs;
    Unfolded(children, v);
    var c, at := children[0], DataAt(children, v);
    FourWords(img, base, addr, if c.File? then 0 else 1, v, at, EntrySize(c),
              Entries(children[1..], NextAt(children, v)));
  }

  ghost predicate EntryIs(img: seq<Byte>, base: nat, addr: nat, kind: nat, name: nat, data: nat, size: nat) {
    && base <= addr && addr - base + ENTRY <= |img|
    && ReadWord(img, addr - base) == kind && ReadWord(img, addr - base + 4) == name
    && ReadWord(img, addr - base + 8) == data && ReadWord(img, addr - base + 12) == size
  }

  /** One child, file or directory. */
  lemma ChildRead(img: seq<Byte>, base: nat, addr: nat, v: nat, c: Node, at: nat)
    requires EntryIs(img, base, addr, if c.File? then 0 else 1, v, at, EntrySize(c)) && addr < at && base <= v
    requires NoZeros(c.name) && At(img, base, v, BinName(c.name))
    requires c.Folder? ==> NamesGood(c.children) && Fits(c.children, at + ENTRY * |c.children|)
    requires At(img, base, at, Padded(Contents(c, at)))
    ensures ReadEntry(img, base, addr) == Some(Seen(c))
    decreases c, 1
  {
    hide Fits, Entries, Payload, Padded, At, ReadWord, ReadEntries, NamesGood, NoZeros, CString, Utf8;
    Utf8NoZeros(c.name);
    NameRead(img, base, v, Utf8(c.name), 4 - |c.name| % 4);
    Unpad(img, base, at, Contents(c, at));
    AtRange(img, base, at, Contents(c, at));
    if c.Folder? {
      var w := at + ENTRY * |c.children|;
      AtSplit(img, base, at, Entries(c.children, w), Payload(c.children, w));
      ReadsBack(img, base, at, w, c.children);
    } else {
      FileRead(img, base, at, c.data);
    }
  }

  lemma FileRead(img: seq<Byte>, base: nat, at: nat, data: seq<Byte>)
    requires At(img, base, at, data)
    ensures base <= at && at - base + |data| <= |img| && img[at - base..at - base + |data|] == data
  {
  }

  lemma Unpad(img: seq<Byte>, base: nat, addr: nat, data: seq<Byte>)
    requires At(img, base, addr, Padded(data))
    ensures At(img, base, addr, data)
  {
    if |data| % 4 != 0 {
      AtSplit(img, base, addr, data, Zeros(4 - |data| % 4));
    }
  }

  // ------------------------------------------------------------------ the whole image

  const ROOT_NAME: seq<Byte> := [47, 0, 0, 0]

  predicate ImageFits(children: seq<Node>, base: nat) {
    && base + ENTRY + 4 < WORD && |children| < WORD
    && Fits(children, base + ENTRY + 4 + ENTRY * |children|)
  }

  /** The entry of the root directory, its name, and all it holds. */
  function Image(children: seq<Node>, base: nat): seq<Byte>
    requires ImageFits(children, base)
  {
    Word(1) + Word(base + ENTRY) + Word(base + ENTRY + 4) + Word(|children|)
    + ROOT_NAME + FolderData(children, base + ENTRY + 4)
  }

  lemma AtWhole(img: seq<Byte>, base: nat)
    ensures At(img, base, base, img)
  {
    assert img[..|img|] == img;
  }

  /** The parts of the image, each where the root entry says it is. */
  lemma ImageParts(children: seq<Node>, base: nat)
    requires ImageFits(children, base)
    ensures var img, at := Image(children, base), base + ENTRY + 4;
            && EntryIs(img, base, base, 1, base + ENTRY, at, |children|)
            && At(img, base, base + ENTRY, ROOT_NAME)
            && At(img, base, at, FolderData(children, at))
  {
    hide Word, At, ReadWord, FolderData, Fits, EntryIs;
    var at := base + ENTRY + 4;
    ImageSplit(Word(1), Word(base + ENTRY), Word(at), Word(|children|), ROOT_NAME, FolderData(children, at));
    AtWhole(Image(children, base), base);
    FourWords(Image(children, base), base, base, 1, base + ENTRY, at, |children|, ROOT_NAME + FolderData(children, at));
    AtSplit(Image(children, base), base, base + ENTRY, ROOT_NAME, FolderData(children, at));
  }

  lemma ImageSplit<T>(a: seq<T>, b: seq<T>, c: seq<T>, d: seq<T>, e: seq<T>, f: seq<T>)
    ensures a + b + c + d + e + f == a + b + c + d + (e + f)
  {
  }

  /** Following an image from its root gives back the tree: names, kinds, sizes and contents. */
  lemma RoundTrip(children: seq<Node>, base: nat)
    requires ImageFits(children, base) && NamesGood(children)
    ensures ReadEntry(Image(children, base), base, base) == Some(FoundFolder([47], SeenAll(children)))
  {
    hide Fits, FolderData, Entries, Payload, Contents, Image, At, ReadWord, ReadEntries, NamesGood, CString;
    var img, at := Image(children, base), base + ENTRY + 4;
    ImageParts(children, base);
    assert ROOT_NAME == [47] + Zeros(3);
    NameRead(img, base, base + ENTRY, [47], 3);
    AtRange(img, base, at, FolderData(children, at));
    DataRead(img, base, at, children);
  }

  lemma DataRead(img: seq<Byte>, base: nat, at: nat, children: seq<Node>)
    requires Fits(children, at + ENTRY * |children|) && NamesGood(children)
    requires At(img, base, at, FolderData(children, at))
    ensures base <= at <= base + |img| && ReadEntries(img, base, at, |children|) == Some(SeenAll(children))
  {
    hide Fits, Entries, Payload, At, ReadEntries, NamesGood;
    var v := at + ENTRY * |children|;
    AtSplit(img, base, at, Entries(children, v), Payload(children, v));
    ReadsBack(img, base, at, v, children);
  }

  // ------------------------------------------------------------------ building it

  /** The part of the loop still to run: what is built so far, and the children to come. */
  ghost predicate Built(children: seq<Node>, v0: nat, i: nat, v: nat, entries: seq<Byte>, payload: seq<Byte>)
    requires i <= |children|
  {
    && (Fits(children, v0) <==> Fits(children[i..], v))
    && (Fits(children, v0) ==> Entries(children, v0) == entries + Entries(children[i..], v)
                               && Payload(children, v0) == payload + Payload(children[i..], v))
  }

  lemma BuiltStart(children: seq<Node>, v0: nat)
    ensures Built(children, v0, 0, v0, [], [])
  {
    hide Fits, Entries, Payload;
    assert children[0..] == children;
  }

  lemma BuiltEnd(children: seq<Node>, v0: nat, v: nat, entries: seq<Byte>, payload: seq<Byte>)
    requires Built(children, v0, |children|, v, entries, payload)
    ensures Fits(children, v0) && Entries(children, v0) + Payload(children, v0) == entries + payload
  {
    assert children[|children|..] == [];
  }

  lemma BuiltNext(children: seq<Node>, v0: nat, i: nat, v: nat, entries: seq<Byte>, payload: seq<Byte>)
    requires i < |children| && Built(children, v0, i, v, entries, payload)
    requires FirstFits(children[i], v)
    ensures var c, at := children[i], v + |BinName(children[i].name)|;
            Built(children, v0, i + 1, at + |Padded(Contents(c, at))|,
                  entries + (Word(if c.File? then 0 else 1) + Word(v) + Word(at) + Word(EntrySize(c))),
                  payload + BinName(c.name) + Padded(Contents(c, at)))
  {
    hide Word, BinName, Padded, Contents;
    var rest := children[i..];
    assert rest[0] == children[i] && rest[1..] == children[i + 1..];
  }

  /** The first of some children packs without error. */
  ghost predicate FirstFits(c: Node, v: nat) {
    var at := v + |BinName(c.name)|;
    && (c.Folder? ==> Fits(c.children, at + ENTRY * |c.children|))
    && v < WORD && at < WORD && EntrySize(c) < WORD
  }

  lemma FitsFirst(children: seq<Node>, v: nat)
    requires children != [] && Fits(children, v)
    ensures FirstFits(children[0], v)
  {
    hide BinName, Padded, Contents;
  }

  lemma FirstFails(children: seq<Node>, v0: nat, i: nat, v: nat, entries: seq<Byte>, payload: seq<Byte>)
    requires i < |children| && Built(children, v0, i, v, entries, payload) && !FirstFits(children[i], v)
    ensures !Fits(children, v0)
  {
    hide Fits, FirstFits;
    if Fits(children, v0) {
      FitsFirst(children[i..], v);
    }
  }

  /** Packing the four words of an entry; a word of 2^32 or more is an error. */
  method Pack(kind: nat, name: nat, data: nat, size: nat) returns (r: Option<seq<Byte>>)
    requires kind < WORD
    ensures r == if name < WORD && data < WORD && size < WORD
                 then Some(Word(kind) + Word(name) + Word(data) + Word(size)) else None
  {
    if name < WORD && data < WORD && size < WORD {
      return Some(Word(kind) + Word(name) + Word(data) + Word(size));
    }
    return None;
  }

  /** `Folder.bin_data` and `File.bin_data`. */
  method BinData(c: Node, base: nat) returns (r: Option<seq<Byte>>)
    ensures r == if c.Folder? ==> Fits(c.children, base + ENTRY * |c.children|) then Some(Contents(c, base)) else None
    decreases c
  {
    hide Fits, Entries, Payload, BinName, Padded, Built, FirstFits, Word;
    if c.File? {
      return Some(c.data);
    }
    var children, start := c.children, base + ENTRY * |c.children|;
    var v: nat := start;
    var entries: seq<Byte>, payload: seq<Byte> := [], [];
    BuiltStart(children, start);
    for i := 0 to |children|
      invariant Built(children, start, i, v, entries, payload)
    {
      var child := children[i];
      var name, nameAt := BinName(child.name), v;
      var at := nameAt + |name|;
      var data := BinData(child, at);
      if data == None {
        FirstFitsIs(child, nameAt);
        FirstFails(children, start, i, v, entries, payload);
        return None;
      }
      var padded := Padded(data.value);
      var entry := Pack(if child.File? then 0 else 1, nameAt, at, EntrySize(child));
      if entry == None {
        FirstFitsIs(child, nameAt);
        FirstFails(children, start, i, v, entries, payload);
        return None;
      }
      FirstFitsIs(child, nameAt);
      BuiltNext(children, start, i, v, entries, payload);
      v := at + |padded|;
      entries := entries + entry.value;
      payload := payload + name + padded;
    }
    BuiltEnd(children, start, v, entries, payload);
    return Some(entries + payload);
  }

  lemma FirstFitsIs(c: Node, v: nat)
    ensures FirstFits(c, v)
       <==> (c.Folder? ==> Fits(c.children, v + |BinName(c.name)| + ENTRY * |c.children|))
            && v < WORD && v + |BinName(c.name)| < WORD && EntrySize(c) < WORD
  {
  }

  /** `get_bin_data`: the image, or an error exactly when some word does not fit. */
  method GetBinData(tree: Node, base: nat) returns (r: Option<seq<Byte>>)
    requires tree.Folder?
    ensures r == if ImageFits(tree.children, base) then Some(Image(tree.children, base)) else None
  {
    hide Fits, Word, Entries, Payload;
    var v := base + ENTRY;
    var nameAt := v;
    v := v + 4;
    var entry := Pack(1, nameAt, v, |tree.children|);
    if entry == None {
      return None;
    }
    var data := BinData(tree, v);
    if data == None {
      return None;
    }
    return Some(entry.value + ROOT_NAME + data.value);
  }

  // ------------------------------------------------------------------ alignment

  /** A padded name has a length divisible by four only when it has as many bytes as characters, modulo four. */
  lemma NameAligned(name: Name)
    ensures |BinName(name)| % 4 == 0 <==> |Utf8(name)| % 4 == |name| % 4
  {
  }

  /** For names in ASCII the two agree. */
  lemma {:induction false} AsciiAligned(name: Name)
    requires forall i :: 0 <= i < |name| ==> |name[i]| == 1
    ensures |Utf8(name)| == |name|
  {
    if name != [] {
      AsciiAligned(name[1..]);
    }
  }

  predicate NamesAlign(children: seq<Node>)
    decreases children
  {
    children == []
    || (|Utf8(children[0].name)| % 4 == |children[0].name| % 4
        && (children[0].Folder? ==> NamesAlign(children[0].children)) && NamesAlign(children[1..]))
  }

  /** Every address recorded in the tree is a multiple of four. */
  predicate AddressesAlign(children: seq<Node>, v: nat)
    requires Fits(children, v)
    decreases children
  {
    children == []
    || (var c, at := children[0], v + |BinName(children[0].name)|;
        && v % 4 == 0 && at % 4 == 0
        && (c.Folder? ==> AddressesAlign(c.children, at + ENTRY * |c.children|))
        && AddressesAlign(children[1..], at + |Padded(Contents(c, at))|))
  }

  /** Contents get as few zero bytes as make their length a multiple of four. */
  lemma PaddedAligned(data: seq<Byte>)
    ensures |Padded(data)| % 4 == 0 && data <= Padded(data) && |Padded(data)| < |data| + 4
    ensures forall i :: |data| <= i < |Padded(data)| ==> Padded(data)[i] == 0
  {
  }

  /** The next multiple of four. */
  function RoundedUp(n: nat): nat {
    (n + 3) / 4 * 4
  }

  predicate AsciiTree(children: seq<Node>)
    decreases children
  {
    children == []
    || ((forall i :: 0 <= i < |children[0].name| ==> |children[0].name[i]| == 1)
        && (children[0].Folder? ==> AsciiTree(children[0].children)) && AsciiTree(children[1..]))
  }

  /** What a directory takes: for each child an entry, its name with a zero behind it, and its contents. */
  function BytesFor(children: seq<Node>): nat
    decreases children
  {
    if children == [] then 0
    else
      var c := children[0];
      ENTRY + RoundedUp(|c.name| + 1) + (if c.File? then RoundedUp(|c.data|) else BytesFor(c.children))
      + BytesFor(children[1..])
  }

  /** With names in ASCII nothing else is in the image. */
  lemma FolderSize(children: seq<Node>, base: nat)
    requires Fits(children, base + ENTRY * |children|) && AsciiTree(children)
    ensures |FolderData(children, base)| == BytesFor(children) && BytesFor(children) % 4 == 0
  {
    hide Fits;
    PayloadSize(children, base + ENTRY * |children|);
  }

  lemma {:induction false} PayloadSize(children: seq<Node>, v: nat)
    requires Fits(children, v) && AsciiTree(children)
    ensures ENTRY * |children| + |Payload(children, v)| == BytesFor(children) && BytesFor(children) % 4 == 0
    decreases children
  {
    hide Contents, BinName, Padded, Fits, Payload, RoundedUp;
    PayloadStep(children, v);
    if children != [] {
      var c, at := children[0], v + |BinName(children[0].name)|;
      NameSize(c.name);
      ContentsSize(Contents(c, at));
      RoundedAligned(|c.name| + 1);
      RoundedAligned(|Contents(c, at)|);
      if c.Folder? {
        PayloadSize(c.children, at + ENTRY * |c.children|);
        FolderContents(c, at);
      } else {
        FileContents(c, at);
      }
      PayloadSize(children[1..], at + |Padded(Contents(c, at))|);
    }
  }

  lemma PayloadStep(children: seq<Node>, v: nat)
    requires Fits(children, v)
    ensures children == [] ==> Payload(children, v) == []
    ensures children != [] ==>
      var c, at := children[0], v + |BinName(children[0].name)|;
      && (c.Folder? ==> Fits(c.children, at + ENTRY * |c.children|))
      && Fits(children[1..], at + |Padded(Contents(c, at))|)
      && |Payload(children, v)| ==
         |BinName(c.name)| + |Padded(Contents(c, at))| + |Payload(children[1..], at + |Padded(Contents(c, at))|)|
  {
    hide Contents, BinName, Padded;
  }

  lemma RoundedAligned(n: nat)
    ensures RoundedUp(n) % 4 == 0
    ensures n % 4 == 0 ==> RoundedUp(n) == n
  {
  }

  lemma NameSize(name: Name)
    requires forall i :: 0 <= i < |name| ==> |name[i]| == 1
    ensures |BinName(name)| == RoundedUp(|name| + 1)
  {
    AsciiAligned(name);
  }

  lemma ContentsSize(data: seq<Byte>)
    ensures |Padded(data)| == RoundedUp(|data|)
  {
  }

  lemma FolderContents(c: Node, at: nat)
    requires c.Folder? && Fits(c.children, at + ENTRY * |c.children|)
    ensures |Contents(c, at)| == ENTRY * |c.children| + |Payload(c.children, at + ENTRY * |c.children|)|
  {
    hide Fits, Entries, Payload;
  }

  lemma FileContents(c: Node, at: nat)
    requires c.File?
    ensures Contents(c, at) == c.data
  {
  }

  lemma Multiple(a: nat, n: nat)
    requires a % 4 == 0
    ensures (a + ENTRY * n) % 4 == 0
  {
    assert (a + 16 * n) % 4 == (a + 4 * (4 * n)) % 4;
  }

  /** All recorded addresses are aligned exactly when every name in the tree is one that pads to a multiple of four. */
  lemma {:induction false} AlignedTree(children: seq<Node>, v: nat)
    requires Fits(children, v) && v % 4 == 0
    ensures AddressesAlign(children, v) <==> NamesAlign(children)
    decreases children
  {
    hide Contents, BinName, Padded;
    if children != [] {
      var c, at := children[0], v + |BinName(children[0].name)|;
      NameAligned(c.name);
      PaddedAligned(Contents(c, at));
      if at % 4 == 0 {
        if c.Folder? {
          Multiple(at, |c.children|);
          AlignedTree(c.children, at + ENTRY * |c.children|);
        }
        AlignedTree(children[1..], at + |Padded(Contents(c, at))|);
      }
    }
  }

  /** An empty file whose name is one letter of two bytes: its data address is not aligned. */
  lemma MisalignedName()
    ensures var children := [File([[0xC3, 0xA9]], [])];
            Fits(children, ENTRY) && !AddressesAlign(children, ENTRY)
  {
    var name: Name := [[0xC3, 0xA9]];
    var children := [File(name, [])];
    assert Utf8(name) == name[0] + Utf8(name[1..]) && name[1..] == [];
    assert children[1..] == [];
  }
}
