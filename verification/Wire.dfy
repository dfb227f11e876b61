/** The wire format between the Coordinador and an Instancia: what is sent for each message,
    and what the other side makes of a stream of bytes. */
module Wire {
  import opened Storage

  type Bytes = seq<Byte>

  /** What is left of a stream after something has been received, or a failed receive. */
  datatype Parse<T> = Failed | Received(value: T, rest: Bytes)

  // ----- numbers, as the machine lays them out -----

  function Power(width: nat): nat {
    if width == 0 then 1 else 256 * Power(width - 1)
  }

  function LittleEndian(n: nat, width: nat): (bs: Bytes)
    ensures |bs| == width
  {
    if width == 0 then [] else [(n % 256) as Byte] + LittleEndian(n / 256, width - 1)
  }

  function FromLittleEndian(bs: Bytes): nat {
    if bs == [] then 0 else bs[0] as int + 256 * FromLittleEndian(bs[1..])
  }

  lemma {:induction false} NumberBack(n: nat, width: nat)
    requires n < Power(width)
    ensures FromLittleEndian(LittleEndian(n, width)) == n
  {
    if width > 0 {
      NumberBack(n / 256, width - 1);
      assert LittleEndian(n, width)[1..] == LittleEndian(n / 256, width - 1);
    }
  }

  /** Each byte of a number is its digit to the base 256, the lowest first. */
  lemma {:induction false} NumberDigits(n: nat, width: nat, i: nat)
    requires i < width
    ensures Power(i) > 0 && LittleEndian(n, width)[i] as int == n / Power(i) % 256
  {
    if i > 0 {
      NumberDigits(n / 256, width - 1, i - 1);
      DividedTwice(n, 256, Power(i - 1));
    }
  }

  lemma DividedTwice(n: nat, a: nat, b: nat)
    requires a > 0 && b > 0
    ensures a * b > 0 && n / a / b == n / (a * b)
  {
    Division(n, a);
    Division(n / a, b);
    Product(a, b, n / a / b, n / a % b, n % a);
    QuotientIs(n, a * b, n / a / b, a * (n / a % b) + n % a);
  }

  lemma Division(n: nat, d: nat)
    requires d > 0
    ensures n == d * (n / d) + n % d && 0 <= n % d < d
  {
  }

  lemma Product(a: nat, b: nat, q: nat, r: nat, s: nat)
    requires a > 0 && b > 0 && r < b && s < a
    ensures a * b > 0 && a * (b * q + r) + s == (a * b) * q + (a * r + s) && a * r + s < a * b
  {
    assert a * (b * q + r) == a * (b * q) + a * r;
    assert a * (b * q) == (a * b) * q;
    assert a * r <= a * (b - 1) == a * b - a;
  }

  lemma QuotientIs(n: nat, d: nat, q: nat, r: nat)
    requires d > 0 && n == d * q + r && r < d
    ensures n / d == q
  {
    var e := n / d - q;
    assert n == d * (n / d) + n % d;
    assert d * e == d * (n / d) - d * q;
    assert e >= 1 ==> d * e >= d;
    assert e <= -1 ==> d * -e >= d;
  }

  const SIZE_WIDTH: nat := 8
  const INT_WIDTH: nat := 4
  const SIZE_MAX: nat := 0x1_0000_0000_0000_0000
  const INT_RANGE: nat := 0x1_0000_0000

  lemma Powers()
    ensures Power(SIZE_WIDTH) == SIZE_MAX && Power(INT_WIDTH) == INT_RANGE
  {
    assert Power(2) == 0x1_0000;
    assert Power(4) == INT_RANGE;
    assert Power(6) == 0x1_0000_0000_0000;
  }

  /** A `size_t`. */
  function Size(n: nat): Bytes {
    LittleEndian(n, SIZE_WIDTH)
  }

  /** An `int` or an enumeration, in two's complement. */
  function Int(i: int): Bytes {
    LittleEndian(i % INT_RANGE, INT_WIDTH)
  }

  predicate IsInt(i: int) {
    0 <= i + INT_RANGE / 2 < INT_RANGE
  }

  function ToInt(n: nat): int {
    if n < INT_RANGE / 2 then n else n - INT_RANGE
  }

  /** `chunk_recv`. */
  function Recv(stream: Bytes, n: nat): Parse<Bytes> {
    if |stream| < n then Failed else Received(stream[..n], stream[n..])
  }

  function RecvSize(stream: Bytes): Parse<nat> {
    match Recv(stream, SIZE_WIDTH)
    case Failed => Failed
    case Received(bs, rest) => Received(FromLittleEndian(bs), rest)
  }

  function RecvInt(stream: Bytes): Parse<int> {
    match Recv(stream, INT_WIDTH)
    case Failed => Failed
    case Received(bs, rest) => Received(ToInt(FromLittleEndian(bs)), rest)
  }

  lemma RecvWhole(bs: Bytes, rest: Bytes)
    ensures Recv(bs + rest, |bs|) == Received(bs, rest)
  {
  }

  lemma SizeBack(n: nat, rest: Bytes)
    requires n < SIZE_MAX
    ensures RecvSize(Size(n) + rest) == Received(n, rest)
  {
    Powers();
    NumberBack(n, SIZE_WIDTH);
    RecvWhole(Size(n), rest);
  }

  lemma IntBack(i: int, rest: Bytes)
    requires IsInt(i)
    ensures RecvInt(Int(i) + rest) == Received(i, rest)
  {
    Powers();
    NumberBack(i % INT_RANGE, INT_WIDTH);
    RecvWhole(Int(i), rest);
    assert i % INT_RANGE == if i < 0 then i + INT_RANGE else i;
  }

  // ----- byte strings and texts -----

  /** `chunk_add_variable`. */
  function Variable(content: Bytes): Bytes {
    Size(|content|) + content
  }

  /** `chunk_recv_variable`. */
  function RecvVariable(stream: Bytes): Parse<Bytes> {
    match RecvSize(stream)
    case Failed => Failed
    case Received(n, rest) => Recv(rest, n)
  }

  lemma VariableBack(content: Bytes, rest: Bytes)
    requires |content| < SIZE_MAX
    ensures RecvVariable(Variable(content) + rest) == Received(content, rest)
  {
    SizeBack(|content|, content + rest);
    assert Variable(content) + rest == Size(|content|) + (content + rest);
    RecvWhole(content, rest);
  }

  /** A C text: no zero byte, and with its terminator it fits a `size_t`. */
  ghost predicate IsText(t: Bytes) {
    0 as Byte !in t && |t| + 1 < SIZE_MAX
  }

  /** A text goes with its terminator. */
  function Text(t: Bytes): Bytes {
    Variable(t + [0])
  }

  /** What a buffer means as a C text: what comes before the first zero byte. */
  function AsText(buffer: Bytes): Bytes {
    if buffer == [] || buffer[0] == 0 then [] else [buffer[0]] + AsText(buffer[1..])
  }

  function RecvText(stream: Bytes): Parse<Bytes> {
    match RecvVariable(stream)
    case Failed => Failed
    case Received(buffer, rest) => Received(AsText(buffer), rest)
  }

  lemma {:induction false} Terminated(t: Bytes)
    requires 0 as Byte !in t
    ensures AsText(t + [0]) == t
  {
    if t != [] {
      Terminated(t[1..]);
      assert (t + [0])[1..] == t[1..] + [0];
    }
  }

  lemma TextBack(t: Bytes, rest: Bytes)
    requires IsText(t)
    ensures RecvText(Text(t) + rest) == Received(t, rest)
  {
    VariableBack(t + [0], rest);
    Terminated(t);
  }

  // ----- from the Coordinador to an instance -----

  datatype Request =
    | SetRequest(isNew: bool, key: Bytes, value: Bytes)
    | StoreRequest(key: Bytes)
    | CompactRequest
    | ValueRequest(key: Bytes)
    | AliveRequest
    | KillRequest

  /** `request_coordinador`. */
  function RequestCode(m: Request): int {
    match m
    case SetRequest(_, _, _) => 1
    case StoreRequest(_) => 2
    case CompactRequest => 3
    case ValueRequest(_) => 4
    case AliveRequest => 5
    case KillRequest => 6
  }

  ghost predicate Sendable(m: Request) {
    match m
    case SetRequest(_, k, v) => IsText(k) && |k| <= KEY_LENGTH && IsText(v)
    case StoreRequest(k) => IsText(k)
    case ValueRequest(k) => IsText(k)
    case _ => true
  }

  function Flag(b: bool): Bytes {
    [if b then 1 else 0]
  }

  function RequestBytes(m: Request): Bytes {
    Int(RequestCode(m)) +
    match m
    case SetRequest(isNew, k, v) => Flag(isNew) + (Text(k) + Text(v))
    case StoreRequest(k) => Text(k)
    case ValueRequest(k) => Text(k)
    case _ => []
  }

  const KEY_LENGTH: nat := 40

  /** `key_value_create` keeps 40 characters of the key. */
  function ShortKey(k: Bytes): Bytes {
    if |k| <= KEY_LENGTH then k else k[..KEY_LENGTH]
  }

  /** `coordinator_api_receive_set`. */
  function RecvSet(stream: Bytes): Parse<Request> {
    match Recv(stream, 1)
    case Failed => Failed
    case Received(flag, r1) =>
      match RecvText(r1)
      case Failed => Failed
      case Received(k, r2) =>
        match RecvText(r2)
        case Failed => Failed
        case Received(v, r3) => Received(SetRequest(flag[0] != 0, ShortKey(k), v), r3)
  }

  /** What the instance's loop receives; an unknown header is received as a failure. */
  function RecvRequest(stream: Bytes): Parse<Request> {
    match RecvInt(stream)
    case Failed => Failed
    case Received(code, r1) =>
      if code == 1 then RecvSet(r1)
      else if code == 2 || code == 4 then
        match RecvText(r1)
        case Failed => Failed
        case Received(k, r2) => Received(if code == 2 then StoreRequest(k) else ValueRequest(k), r2)
      else if code == 3 then Received(CompactRequest, r1)
      else if code == 5 then Received(AliveRequest, r1)
      else if code == 6 then Received(KillRequest, r1)
      else Failed
  }

  lemma SetBack(isNew: bool, k: Bytes, v: Bytes, rest: Bytes)
    requires Sendable(SetRequest(isNew, k, v))
    ensures RecvSet(Flag(isNew) + (Text(k) + Text(v)) + rest) == Received(SetRequest(isNew, k, v), rest)
  {
    hide Text;
    hide RecvText;
    var r2 := Text(v) + rest;
    var r1 := Text(k) + r2;
    assert Flag(isNew) + (Text(k) + Text(v)) + rest == Flag(isNew) + r1;
    RecvWhole(Flag(isNew), r1);
    TextBack(k, r2);
    TextBack(v, rest);
  }

  /** The instance receives what was sent, and exactly its bytes. */
  lemma RequestBack(m: Request, rest: Bytes)
    requires Sendable(m)
    ensures RecvRequest(RequestBytes(m) + rest) == Received(m, rest)
  {
    var code := Int(RequestCode(m));
    var body := RequestBytes(m)[|code|..];
    assert RequestBytes(m) == code + body;
    assert RequestBytes(m) + rest == code + (body + rest);
    IntBack(RequestCode(m), body + rest);
    match m
    case SetRequest(isNew, k, v) => SetBack(isNew, k, v, rest);
    case StoreRequest(k) => TextBack(k, rest);
    case ValueRequest(k) => TextBack(k, rest);
    case _ => assert body + rest == rest;
  }

  // ----- from an instance to the Coordinador -----

  datatype Notice =
    | SetNotice(status: int, used: nat)
    | StoreNotice(status: int)
    | ValueNotice(value: Bytes)
    | NoValueNotice
    | AliveNotice

  const STATUS_OK: int := 1
  const STATUS_REPLACED: int := 0

  ghost predicate Notifiable(m: Notice) {
    match m
    case SetNotice(status, used) => IsInt(status) && used < SIZE_MAX
    case StoreNotice(status) => IsInt(status)
    case ValueNotice(v) => IsText(v)
    case _ => true
  }

  /** `request_instancia`. */
  function NoticeBytes(m: Notice): Bytes {
    match m
    case SetNotice(status, used) => Int(1) + (Int(status) + Size(used))
    case StoreNotice(status) => Int(2) + Int(status)
    case ValueNotice(v) => Int(3) + (Int(STATUS_OK) + Text(v))
    case NoValueNotice => Int(3) + Int(STATUS_REPLACED)
    case AliveNotice => Int(4)
  }

  /** The Coordinador waits for one kind of notice at a time: the code it expects. */
  function NoticeCode(m: Notice): int {
    match m
    case SetNotice(_, _) => 1
    case StoreNotice(_) => 2
    case ValueNotice(_) => 3
    case NoValueNotice => 3
    case AliveNotice => 4
  }

  /** `instance_recv_set_execution_status`, `instance_recv_store_execution_status`,
      `instance_request_value` and `instance_test_connection`, by the code they wait for. */
  function RecvNotice(expected: int, stream: Bytes): Parse<Notice> {
    match RecvInt(stream)
    case Failed => Failed
    case Received(code, r1) =>
      if code != expected then Failed
      else if expected == 4 then Received(AliveNotice, r1)
      else
        match RecvInt(r1)
        case Failed => Failed
        case Received(status, r2) =>
          if expected == 2 then Received(StoreNotice(status), r2)
          else if expected == 1 then
            match RecvSize(r2)
            case Failed => Failed
            case Received(used, r3) => Received(SetNotice(status, used), r3)
          else if expected == 3 && status == STATUS_OK then RecvValue(r2)
          else if expected == 3 && status == STATUS_REPLACED then Received(NoValueNotice, r2)
          else Failed
  }

  /** A value of size 0 is a failure: not even a terminator was sent. */
  function RecvValue(stream: Bytes): Parse<Notice> {
    match RecvVariable(stream)
    case Failed => Failed
    case Received(buffer, rest) => if buffer == [] then Failed else Received(ValueNotice(AsText(buffer)), rest)
  }

  lemma NoticeBack(m: Notice, rest: Bytes)
    requires Notifiable(m)
    ensures RecvNotice(NoticeCode(m), NoticeBytes(m) + rest) == Received(m, rest)
  {
    match m
    case SetNotice(status, used) => SetNoticeBack(status, used, rest);
    case StoreNotice(status) =>
      assert NoticeBytes(m) + rest == Int(2) + (Int(status) + rest);
      IntBack(2, Int(status) + rest);
      IntBack(status, rest);
    case ValueNotice(v) => ValueNoticeBack(v, rest);
    case NoValueNotice =>
      assert NoticeBytes(m) + rest == Int(3) + (Int(STATUS_REPLACED) + rest);
      IntBack(3, Int(STATUS_REPLACED) + rest);
      IntBack(STATUS_REPLACED, rest);
    case AliveNotice => IntBack(4, rest);
  }

  lemma SetNoticeBack(status: int, used: nat, rest: Bytes)
    requires Notifiable(SetNotice(status, used))
    ensures RecvNotice(1, NoticeBytes(SetNotice(status, used)) + rest) == Received(SetNotice(status, used), rest)
  {
    var r2 := Size(used) + rest;
    var r1 := Int(status) + r2;
    assert NoticeBytes(SetNotice(status, used)) + rest == Int(1) + r1;
    IntBack(1, r1);
    IntBack(status, r2);
    SizeBack(used, rest);
  }

  lemma ValueNoticeBack(v: Bytes, rest: Bytes)
    requires IsText(v)
    ensures RecvNotice(3, NoticeBytes(ValueNotice(v)) + rest) == Received(ValueNotice(v), rest)
  {
    var r2 := Text(v) + rest;
    var r1 := Int(STATUS_OK) + r2;
    assert NoticeBytes(ValueNotice(v)) + rest == Int(3) + r1;
    IntBack(3, r1);
    IntBack(STATUS_OK, r2);
    VariableBack(v + [0], rest);
    Terminated(v);
  }

  // ----- whole conversations -----

  function RequestStream(ms: seq<Request>): Bytes {
    if ms == [] then [] else RequestBytes(ms[0]) + RequestStream(ms[1..])
  }

  /** The first n requests that the instance's loop receives from a stream. */
  function RecvRequests(stream: Bytes, n: nat): Parse<seq<Request>>
    decreases n
  {
    if n == 0 then Received([], stream)
    else
      match RecvRequest(stream)
      case Failed => Failed
      case Received(m, r1) =>
        match RecvRequests(r1, n - 1)
        case Failed => Failed
        case Received(ms, r2) => Received([m] + ms, r2)
  }

  /** Any sequence of requests arrives as it was sent, and uses up exactly the bytes sent. */
  lemma {:induction false} RequestsBack(ms: seq<Request>, rest: Bytes)
    requires forall m :: m in ms ==> Sendable(m)
    ensures RecvRequests(RequestStream(ms) + rest, |ms|) == Received(ms, rest)
    decreases |ms|
  {
    if ms == [] {
      assert RequestStream(ms) + rest == rest;
    } else {
      var tail := RequestStream(ms[1..]) + rest;
      assert RequestStream(ms) + rest == RequestBytes(ms[0]) + tail;
      RequestBack(ms[0], tail);
      RequestsBack(ms[1..], rest);
      assert [ms[0]] + ms[1..] == ms;
    }
  }

  function NoticeStream(ms: seq<Notice>): Bytes {
    if ms == [] then [] else NoticeBytes(ms[0]) + NoticeStream(ms[1..])
  }

  /** The notices that the Coordinador receives from a stream when it waits for these kinds. */
  function RecvNotices(expected: seq<int>, stream: Bytes): Parse<seq<Notice>>
    decreases |expected|
  {
    if expected == [] then Received([], stream)
    else
      match RecvNotice(expected[0], stream)
      case Failed => Failed
      case Received(m, r1) =>
        match RecvNotices(expected[1..], r1)
        case Failed => Failed
        case Received(ms, r2) => Received([m] + ms, r2)
  }

  function NoticeCodes(ms: seq<Notice>): seq<int> {
    if ms == [] then [] else [NoticeCode(ms[0])] + NoticeCodes(ms[1..])
  }

  lemma {:induction false} NoticesBack(ms: seq<Notice>, rest: Bytes)
    requires forall m :: m in ms ==> Notifiable(m)
    ensures RecvNotices(NoticeCodes(ms), NoticeStream(ms) + rest) == Received(ms, rest)
    decreases |ms|
  {
    if ms == [] {
      assert NoticeStream(ms) + rest == rest;
    } else {
      var tail := NoticeStream(ms[1..]) + rest;
      assert NoticeStream(ms) + rest == NoticeBytes(ms[0]) + tail;
      NoticeBack(ms[0], tail);
      NoticesBack(ms[1..], rest);
      assert [ms[0]] + ms[1..] == ms;
      assert NoticeCodes(ms)[1..] == NoticeCodes(ms[1..]);
    }
  }

  // ----- the configuration of an instance -----

  /** The texts of a list, one after the other. */
  function Texts(ts: seq<Bytes>): Bytes {
    if ts == [] then [] else Texts(ts[..|ts| - 1]) + Text(ts[|ts| - 1])
  }

  /** What `instance_send_confirmation` sends. */
  function ConfigBytes(entrySize: nat, entries: nat, keys: seq<Bytes>): Bytes {
    Size(entrySize) + (Size(entries) + (Size(|keys|) + Texts(keys)))
  }

  /** n texts in a row. */
  function RecvTexts(stream: Bytes, n: nat): Parse<seq<Bytes>> {
    if n == 0 then Received([], stream)
    else
      match RecvTexts(stream, n - 1)
      case Failed => Failed
      case Received(ts, r1) =>
        match RecvText(r1)
        case Failed => Failed
        case Received(t, r2) => Received(ts + [t], r2)
  }

  datatype Config = Config(entrySize: nat, entries: nat, keys: seq<Bytes>)

  /** `coordinator_api_handshake_receive_config`. */
  function RecvConfig(stream: Bytes): Parse<Config> {
    match RecvSize(stream)
    case Failed => Failed
    case Received(entrySize, r1) =>
      match RecvSize(r1)
      case Failed => Failed
      case Received(entries, r2) =>
        match RecvSize(r2)
        case Failed => Failed
        case Received(n, r3) =>
          match RecvTexts(r3, n)
          case Failed => Failed
          case Received(keys, r4) => Received(Config(entrySize, entries, keys), r4)
  }

  lemma OneMoreText(front: seq<Bytes>, t: Bytes, rest: Bytes)
    requires IsText(t) && RecvTexts(Texts(front) + (Text(t) + rest), |front|) == Received(front, Text(t) + rest)
    ensures RecvTexts(Texts(front + [t]) + rest, |front| + 1) == Received(front + [t], rest)
  {
    hide Text;
    hide RecvText;
    TextBack(t, rest);
    assert (front + [t])[..|front|] == front;
    assert Texts(front + [t]) + rest == Texts(front) + (Text(t) + rest);
  }

  lemma {:induction false} TextsBack(ts: seq<Bytes>, rest: Bytes)
    requires forall t :: t in ts ==> IsText(t)
    ensures RecvTexts(Texts(ts) + rest, |ts|) == Received(ts, rest)
  {
    hide Text;
    hide RecvText;
    hide IsText;
    if ts == [] {
      assert Texts(ts) + rest == rest;
    } else {
      hide RecvTexts;
      hide Texts;
      var front, t := ts[..|ts| - 1], ts[|ts| - 1];
      assert t in ts;
      assert forall x :: x in front ==> x in ts;
      TextsBack(front, Text(t) + rest);
      OneMoreText(front, t, rest);
      assert front + [t] == ts;
    }
  }

  /** The configuration and the list of keys to recover arrive, for a list of any length. */
  lemma ConfigBack(entrySize: nat, entries: nat, keys: seq<Bytes>, rest: Bytes)
    requires entrySize < SIZE_MAX && entries < SIZE_MAX && |keys| < SIZE_MAX
    requires forall t :: t in keys ==> IsText(t)
    ensures RecvConfig(ConfigBytes(entrySize, entries, keys) + rest) == Received(Config(entrySize, entries, keys), rest)
  {
    var r3 := Texts(keys) + rest;
    var r2 := Size(|keys|) + r3;
    var r1 := Size(entries) + r2;
    assert ConfigBytes(entrySize, entries, keys) + rest == Size(entrySize) + r1;
    SizeBack(entrySize, r1);
    SizeBack(entries, r2);
    SizeBack(|keys|, r3);
    TextsBack(keys, rest);
  }

  // ----- byte by byte -----

  lemma Zeros()
    ensures LittleEndian(0, 3) == [0, 0, 0] && LittleEndian(0, 7) == [0, 0, 0, 0, 0, 0, 0]
  {
    assert LittleEndian(0, 1) == [0] && LittleEndian(0, 3) == [0] + ([0] + LittleEndian(0, 1));
    assert LittleEndian(0, 5) == [0] + ([0] + LittleEndian(0, 3));
    assert LittleEndian(0, 7) == [0] + ([0] + LittleEndian(0, 5));
  }

  lemma SmallSize(n: nat)
    requires n < 256
    ensures Size(n) == [n as Byte, 0, 0, 0, 0, 0, 0, 0] && Int(n) == [n as Byte, 0, 0, 0]
  {
    Zeros();
    assert LittleEndian(n, 8) == [n as Byte] + LittleEndian(0, 7);
    assert LittleEndian(n, 4) == [n as Byte] + LittleEndian(0, 3);
  }

  lemma TwoByteSize()
    ensures Size(258) == [2, 1, 0, 0, 0, 0, 0, 0]
  {
    Zeros();
    assert LittleEndian(258, 8) == [2] + LittleEndian(1, 7);
    assert LittleEndian(0, 7) == [0] + LittleEndian(0, 6) && LittleEndian(1, 7) == [1] + LittleEndian(0, 6);
  }

  lemma NegativeInt()
    ensures Int(-2) == [254, 255, 255, 255]
  {
    assert -2 % INT_RANGE == 4294967294;
    assert LittleEndian(4294967294, 4) == [254] + LittleEndian(16777215, 3);
    assert LittleEndian(16777215, 3) == [255] + LittleEndian(65535, 2);
    assert LittleEndian(65535, 2) == [255, 255];
  }

  /** Three texts byte by byte: nothing, "a" and "bc". */
  lemma TextSamples()
    ensures Text([]) == [1, 0, 0, 0, 0, 0, 0, 0, 0]
    ensures Text([97]) == [2, 0, 0, 0, 0, 0, 0, 0, 97, 0]
    ensures Text([98, 99]) == [3, 0, 0, 0, 0, 0, 0, 0, 98, 99, 0]
  {
    hide Size;
    SmallSize(1);
    SmallSize(2);
    SmallSize(3);
    assert [] + [0 as Byte] == [0];
  }

  /** A SET request, place by place: the code 1, whether the key is new, and key and value, each
      with its length and the terminator that is counted in it. */
  lemma SetLayout(isNew: bool, k: Bytes, v: Bytes)
    ensures var bs, n := RequestBytes(SetRequest(isNew, k, v)), |k|;
            && |bs| == 23 + n + |v|
            && bs[..4] == [1, 0, 0, 0] && bs[4] == (if isNew then 1 else 0)
            && bs[5..13] == Size(n + 1) && bs[13..13 + n] == k && bs[13 + n] == 0
            && bs[14 + n..22 + n] == Size(|v| + 1) && bs[22 + n..22 + n + |v|] == v && bs[22 + n + |v|] == 0
  {
    SmallSize(1);
    hide LittleEndian;
    Parts(Int(1), Flag(isNew), Size(|k| + 1), k, Size(|v| + 1), v);
  }

  lemma Parts(code: Bytes, flag: Bytes, a: Bytes, k: Bytes, b: Bytes, v: Bytes)
    requires |code| == 4 && |flag| == 1 && |a| == 8 && |b| == 8
    ensures var bs, n := code + (flag + ((a + (k + [0])) + (b + (v + [0])))), |k|;
            && |bs| == 23 + n + |v|
            && bs[..4] == code && bs[4] == flag[0]
            && bs[5..13] == a && bs[13..13 + n] == k && bs[13 + n] == 0
            && bs[14 + n..22 + n] == b && bs[22 + n..22 + n + |v|] == v && bs[22 + n + |v|] == 0
  {
    var bs := code + flag + a + k + [0] + b + v + [0];
    assert bs == code + (flag + ((a + (k + [0])) + (b + (v + [0]))));
  }

  /** The other requests byte by byte, with the key "a". */
  lemma RequestSamples()
    ensures RequestBytes(StoreRequest([97])) == [2, 0, 0, 0, 2, 0, 0, 0, 0, 0, 0, 0, 97, 0]
    ensures RequestBytes(ValueRequest([97])) == [4, 0, 0, 0, 2, 0, 0, 0, 0, 0, 0, 0, 97, 0]
  {
    hide Text;
    hide Int;
    SmallSize(2);
    SmallSize(4);
    TextSamples();
  }

  lemma BareRequests()
    ensures RequestBytes(CompactRequest) == [3, 0, 0, 0]
    ensures RequestBytes(AliveRequest) == [5, 0, 0, 0] && RequestBytes(KillRequest) == [6, 0, 0, 0]
  {
    SmallSize(3);
    SmallSize(5);
    SmallSize(6);
  }

  /** Each notice byte by byte: the status -2 and 258 entries in use, the value "bc". */
  lemma NoticeSamples()
    ensures NoticeBytes(SetNotice(-2, 258)) == [1, 0, 0, 0, 254, 255, 255, 255, 2, 1, 0, 0, 0, 0, 0, 0]
    ensures NoticeBytes(StoreNotice(1)) == [2, 0, 0, 0, 1, 0, 0, 0]
    ensures NoticeBytes(ValueNotice([98, 99])) == [3, 0, 0, 0, 1, 0, 0, 0, 3, 0, 0, 0, 0, 0, 0, 0, 98, 99, 0]
    ensures NoticeBytes(NoValueNotice) == [3, 0, 0, 0, 0, 0, 0, 0] && NoticeBytes(AliveNotice) == [4, 0, 0, 0]
  {
    hide Size;
    hide Text;
    hide Int;
    SmallSize(0);
    SmallSize(1);
    SmallSize(2);
    SmallSize(3);
    SmallSize(4);
    TwoByteSize();
    NegativeInt();
    TextSamples();
  }

  /** The configuration, place by place: three sizes and then the keys, the first one first. */
  lemma ConfigLayout(entrySize: nat, entries: nat, keys: seq<Bytes>)
    ensures var bs := ConfigBytes(entrySize, entries, keys);
            && |bs| >= 24 && bs[..8] == Size(entrySize) && bs[8..16] == Size(entries) && bs[16..24] == Size(|keys|)
            && bs[24..] == if keys == [] then [] else Text(keys[0]) + Texts(keys[1..])
  {
    hide LittleEndian;
    if keys != [] {
      TextsFromFront(keys);
    }
  }

  lemma {:induction false} TextsFromFront(ts: seq<Bytes>)
    requires ts != []
    ensures Texts(ts) == Text(ts[0]) + Texts(ts[1..])
  {
    hide Text;
    var front, t := ts[..|ts| - 1], ts[|ts| - 1];
    if front == [] {
      assert Texts(ts) == Texts([]) + Text(t) && ts[1..] == [];
    } else {
      TextsFromFront(front);
      assert ts[1..][..|ts| - 2] == front[1..];
    }
  }
}
