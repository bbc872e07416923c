/** A reply that is cut, for a table of ordinary addresses and a plausible size of tokens. */
module CutTable {
  import opened Polyglot
  import opened CodecLaws
  import opened CutLists
  import opened CutReplies
  import opened Packets
  import opened Replication
  import opened SyncService
  import Wire

  /** One way to lay tokens out: a byte for the kind, and behind it the content. */
  function KindAndContent(t: Token): Bytes {
    match t
    case Nil => 1
    case Error(text) => 2 + |text|
    case Uint8(_) => 2
    case Uint32(_) => 5
    case Bool(_) => 2
    case String(s) => 2 + |s|
    case Slice(_, _) => 6
  }

  /** A table of equal addresses and nothing else. */
  function AddressTable(ip: string, n: nat): NATState {
    NATState(Wire.Blank(ip, n), [], [], [], [], [])
  }

  const EMPTY_LISTS: seq<Token> :=
    [Slice(AnyKind, 0), Slice(AnyKind, 0), Slice(AnyKind, 0), Slice(AnyKind, 0), Slice(AnyKind, 0)]

  function Addresses(ip: string, n: nat): seq<Token> {
    Wire.EncodeAll(Wire.EncodeAddress, Wire.Blank(ip, n))
  }

  /** The tokens of a reply up to its first address. */
  function TableFront(requestId: string, ip: string, n: nat): seq<Token> {
    ResponseHead(SyncStateResult(requestId, Loaded(AddressTable(ip, n)))) + [Uint8(0), SliceHeader(StringKind, n)]
  }

  lemma TableTokens(requestId: string, ip: string, n: nat)
    ensures ReplyContent(requestId, Loaded(AddressTable(ip, n)))
         == TableFront(requestId, ip, n) + (Addresses(ip, n) + EMPTY_LISTS)
  {
    hide Wire.EncodeState, Wire.EncodeResponse;
    var r := SyncStateResult(requestId, Loaded(AddressTable(ip, n)));
    var content := ReplyContent(requestId, Loaded(AddressTable(ip, n)));
    var w := ToWire(AddressTable(ip, n));
    assert content + [] == content;
    ResponseTokens(r, []);
    StateTokens(w, []);
    assert TcpInboundTokens(w, []) == EMPTY_LISTS;
    assert [Uint8(0)] + IpsTokens(w, []) == [Uint8(0), SliceHeader(StringKind, n)] + (Addresses(ip, n) + EMPTY_LISTS);
  }

  lemma AddressesSplit(ip: string, m: nat, k: nat)
    requires k > 0
    ensures Addresses(ip, m + k) == Addresses(ip, m) + Addresses(ip, k)
  {
    var all := Wire.Blank(ip, m + k);
    EncodeAllSplit(Wire.EncodeAddress, all, m);
    assert all[..m] == Wire.Blank(ip, m);
    assert all[m + 1..] == Wire.Blank(ip, k)[1..];
  }

  lemma {:induction false} AddressesLength(ip: string, m: nat)
    requires |ip| == 8
    ensures |Addresses(ip, m)| == m && ByteLength(KindAndContent, Addresses(ip, m)) == 10 * m
  {
    if m > 0 {
      AddressesLength(ip, m - 1);
      assert Wire.Blank(ip, m)[1..] == Wire.Blank(ip, m - 1);
      assert Addresses(ip, m) == [String(ip)] + Addresses(ip, m - 1);
      OneToken(KindAndContent, String(ip), Addresses(ip, m - 1));
    }
  }

  lemma OneToken(size: Token -> Bytes, t: Token, rest: seq<Token>)
    ensures ByteLength(size, [t] + rest) == size(t) + ByteLength(size, rest)
  {
    assert ([t] + rest)[1..] == rest;
  }

  lemma FrontLength(ip: string, n: nat)
    ensures ByteLength(KindAndContent, TableFront("a", ip, n)) == 17 && |TableFront("a", ip, n)| == 6
  {
    assert ByteLength(KindAndContent, []) == 0;
    hide ByteLength;
    var h := SliceHeader(StringKind, n);
    OneToken(KindAndContent, h, []);
    OneToken(KindAndContent, Uint8(0), [h] + []);
    OneToken(KindAndContent, String(""), [Uint8(0)] + ([h] + []));
    OneToken(KindAndContent, Bool(true), [String("")] + ([Uint8(0)] + ([h] + [])));
    OneToken(KindAndContent, String("a"), [Bool(true)] + ([String("")] + ([Uint8(0)] + ([h] + []))));
    OneToken(KindAndContent, Uint8(0), [String("a")] + ([Bool(true)] + ([String("")] + ([Uint8(0)] + ([h] + [])))));
    assert TableFront("a", ip, n)
        == [Uint8(0)] + ([String("a")] + ([Bool(true)] + ([String("")] + ([Uint8(0)] + ([h] + [])))));
  }

  lemma EmptyListsLength()
    ensures ByteLength(KindAndContent, EMPTY_LISTS) == 30
  {
    var h := Slice(AnyKind, 0);
    OneToken(KindAndContent, h, []);
    OneToken(KindAndContent, h, [h]);
    OneToken(KindAndContent, h, [h, h]);
    OneToken(KindAndContent, h, [h, h, h]);
    OneToken(KindAndContent, h, [h, h, h, h]);
    assert [h] + [] == [h] && [h] + [h] == [h, h] && [h] + [h, h] == [h, h, h] && [h] + [h, h, h] == [h, h, h, h];
    assert EMPTY_LISTS == [h] + [h, h, h, h];
  }

  /**
   Such cuts happen to tables of ordinary addresses: of 429 496 731 addresses of eight
   characters each, the secondary gets the first four and applies them with all others empty.
   */
  lemma OrdinaryTableCut(id: uint16, ip: string)
    requires |ip| == 8
    ensures var s := AddressTable(ip, 429_496_731);
      && Transportable(s)
      && SyncResult(Received(KindAndContent, ReplyPacket(KindAndContent, id, "a", Loaded(s))))
         == Apply(NATState(Wire.Blank(ip, 4) + Wire.Blank("", 429_496_727), [], [], [], [], []))
  {
    var n: nat := 429_496_731;
    TableSeen(ip, n);
    PartialStateApplied(KindAndContent, id, "a", AddressTable(ip, n));
    assert Wire.Blank(ip, n)[..4] == Wire.Blank(ip, 4);
  }

  lemma TableLength(ip: string, n: nat)
    requires |ip| == 8
    ensures ByteLength(KindAndContent, ReplyContent("a", Loaded(AddressTable(ip, n)))) == 47 + 10 * n
  {
    hide *;
    TableTokens("a", ip, n);
    AddressesLength(ip, n);
    FrontLength(ip, n);
    EmptyListsLength();
    LengthConcat(KindAndContent, TableFront("a", ip, n), Addresses(ip, n) + EMPTY_LISTS);
    LengthConcat(KindAndContent, Addresses(ip, n), EMPTY_LISTS);
  }

  /** The front of the reply and four addresses are within the first 61 bytes, and not the fifth. */
  lemma TableWithin(ip: string, n: nat)
    requires |ip| == 8 && n > 4
    ensures |Within(KindAndContent, ReplyContent("a", Loaded(AddressTable(ip, n))), 61)| == 10
  {
    var front, four, others := TableFront("a", ip, n), Addresses(ip, 4), Addresses(ip, n - 4);
    FifthAddress(ip, n - 4);
    hide *;
    TableTokens("a", ip, n);
    AddressesSplit(ip, 4, n - 4);
    AddressesLength(ip, 4);
    FrontLength(ip, n);
    LengthConcat(KindAndContent, front, four);
    assert front + ((four + others) + EMPTY_LISTS) == front + four + (others + EMPTY_LISTS);
    WithinConcat(KindAndContent, front + four, others + EMPTY_LISTS, 61);
  }

  lemma FifthAddress(ip: string, n: nat)
    requires |ip| == 8 && n > 0
    ensures Within(KindAndContent, Addresses(ip, n) + EMPTY_LISTS, 4) == []
  {
    assert Wire.Blank(ip, n)[0] == ip;
  }

  lemma TableSeen(ip: string, n: nat)
    requires |ip| == 8 && n == 429_496_731
    ensures TokensSeen(KindAndContent, "a", Loaded(AddressTable(ip, n))) == 10
  {
    TableLength(ip, n);
    TableWithin(ip, n);
  }
}
