/**
 * The achievement loaders.  The JSON text is consumed by an event parser
 * whose callbacks update a small record (the "userdata"); the model takes the
 * events of a successful parse as input and folds the callbacks over them.
 *
 * Three folds are modelled: the key lookup used for login tokens and game
 * ids, the counting pass that sizes the achievement arrays, and the reading
 * pass that fills them.  Field slots of the reading pass are not cleared
 * between achievements, so a missing field keeps the previous achievement's
 * value.
 */
module CheevosJson {
  import opened CheevosTypes
  import opened CheevosUtil
  import opened CheevosMemory
  import opened CheevosParse
  import opened Cheevos

  // ---------------------------------------------------------------------
  // Events and key hashes

  /** The callbacks of the event parser, one per event. */
  datatype Event =
    | StartObject
    | EndObject
    | StartArray
    | EndArray
    | Key(name: string)
    | Index(index: nat)
    | Str(text: string)
    | Number(text: string)
    | Boolean(value: bool)
    | Null

  /** djb2 hashes of the keys the loaders recognise. */
  const KEY_ACHIEVEMENTS: u32 := 0x69749ae1
  const KEY_ID: u32 := 0x005973f2
  const KEY_MEMADDR: u32 := 0x1e76b53f
  const KEY_TITLE: u32 := 0x0e2a9a07
  const KEY_DESCRIPTION: u32 := 0xe61a1f69
  const KEY_POINTS: u32 := 0xca8fce22
  const KEY_AUTHOR: u32 := 0xa804edb8
  const KEY_MODIFIED: u32 := 0xdcea4fe6
  const KEY_CREATED: u32 := 0x3a84721d
  const KEY_BADGENAME: u32 := 0x887685d9
  const KEY_CONSOLE_ID: u32 := 0x071656e5
  const KEY_FLAGS: u32 := 0x0d2e96b2

  /** One step of the hash over a prefix, with the values involved. */
  lemma PrefixHash(s: seq<char>, k: nat, h: u32, b: nat, h': u32)
    requires 0 < k <= |s| && Djb2(s[..k - 1]) == h && Byte(s[k - 1]) == b
    requires h' == (h * 33 + b) % U32_MODULUS
    ensures Djb2(s[..k]) == h'
  {
    assert s[..k][..k - 1] == s[..k - 1];
  }

  /** The hash of "Achiev", the first half of "Achievements". */
  lemma AchievHash(s: seq<char>)
    requires |s| >= 6 && s[0] == 'A' && s[1] == 'c' && s[2] == 'h' && s[3] == 'i' && s[4] == 'e' && s[5] == 'v'
    ensures Djb2(s[..6]) == 0xa6b8a315
  {
    assert s[..0] == [];
    PrefixHash(s, 1, 0x1505, 65, 0x2b5e6);
    PrefixHash(s, 2, 0x2b5e6, 99, 0x597309);
    PrefixHash(s, 3, 0x597309, 104, 0xb87d491);
    PrefixHash(s, 4, 0xb87d491, 105, 0x7c82671a);
    PrefixHash(s, 5, 0x7c82671a, 101, 0xccf4abf);
    PrefixHash(s, 6, 0xccf4abf, 118, 0xa6b8a315);
  }

  /** The array constant is the hash of the key name "Achievements". */
  lemma AchievementsHash(s: seq<char>)
    requires |s| == 12 && s[0] == 'A' && s[1] == 'c' && s[2] == 'h' && s[3] == 'i' && s[4] == 'e' && s[5] == 'v'
    requires s[6] == 'e' && s[7] == 'm' && s[8] == 'e' && s[9] == 'n' && s[10] == 't' && s[11] == 's'
    ensures Djb2(s) == KEY_ACHIEVEMENTS
  {
    AchievHash(s);
    PrefixHash(s, 7, 0xa6b8a315, 101, 0x7dcd061a);
    PrefixHash(s, 8, 0x7dcd061a, 109, 0x376dc9c7);
    PrefixHash(s, 9, 0x376dc9c7, 101, 0x2527030c);
    PrefixHash(s, 10, 0x2527030c, 110, 0xca0764fa);
    PrefixHash(s, 11, 0xca0764fa, 116, 0xaf404ae);
    PrefixHash(s, 12, 0xaf404ae, 115, 0x69749ae1);
    assert s[..12] == s;
  }

  /** The flags constant is the hash of the key name "Flags". */
  lemma FlagsHash(s: seq<char>)
    requires |s| == 5 && s[0] == 'F' && s[1] == 'l' && s[2] == 'a' && s[3] == 'g' && s[4] == 's'
    ensures Djb2(s) == KEY_FLAGS
  {
    assert s[..0] == [];
    PrefixHash(s, 1, 0x1505, 70, 0x2b5eb);
    PrefixHash(s, 2, 0x2b5eb, 108, 0x5973b7);
    PrefixHash(s, 3, 0x5973b7, 97, 0xb87eaf8);
    PrefixHash(s, 4, 0xb87eaf8, 103, 0x7c854a5f);
    PrefixHash(s, 5, 0x7c854a5f, 115, 0xd2e96b2);
    assert s[..5] == s;
  }

  lemma AchievementsKey()
    ensures Djb2("Achievements") == KEY_ACHIEVEMENTS
  {
    AchievementsHash("Achievements");
  }

  lemma FlagsKey()
    ensures Djb2("Flags") == KEY_FLAGS
  {
    FlagsHash("Flags");
  }

  // ---------------------------------------------------------------------
  // strtol and the integer conversions around it

  /** `strtol(text, NULL, 10)`: the value of the leading run of decimal digits, 0 if there is none. */
  function Strtol(t: string): nat
  {
    DigitsValue(t, 0, DigitEnd(t, 0, 10), 10)
  }

  /** A `long` stored into an `int`: the low 32 bits, read as two's complement. */
  function Int32(x: int): (r: int)
    ensures -0x8000_0000 <= r < 0x8000_0000
  {
    (x + 0x8000_0000) % U32_MODULUS - 0x8000_0000
  }

  /** The decimal text of `n`, as the server writes a number. */
  function Decimal(n: nat): (s: string)
    ensures |s| > 0
    decreases n
  {
    if n < 10 then [HexDigit(n)] else Decimal(n / 10) + [HexDigit(n % 10)]
  }

  lemma {:induction false} DecimalIsDigits(n: nat)
    ensures forall i :: 0 <= i < |Decimal(n)| ==> '0' <= Decimal(n)[i] <= '9'
    decreases n
  {
    if n >= 10 {
      DecimalIsDigits(n / 10);
    }
  }

  lemma {:induction false} DigitEndAll(s: string, p: nat)
    requires p <= |s| && forall i :: p <= i < |s| ==> '0' <= s[i] <= '9'
    ensures DigitEnd(s, p, 10) == |s|
    decreases |s| - p
  {
    if p < |s| {
      DigitEndAll(s, p + 1);
    }
  }

  /** The digits in [p, e) do not see what follows `e`. */
  lemma {:induction false} DigitsValueSnoc(s: string, c: char, p: nat, e: nat)
    requires p <= e <= |s|
    ensures DigitsValue(s + [c], p, e, 10) == DigitsValue(s, p, e, 10)
    decreases e - p
  {
    if e > p {
      assert At(s + [c], e - 1) == At(s, e - 1);
      DigitsValueSnoc(s, c, p, e - 1);
    }
  }

  lemma {:induction false} DecimalValue(n: nat)
    ensures DigitsValue(Decimal(n), 0, |Decimal(n)|, 10) == n
    decreases n
  {
    HexRoundTrip(n % 10);
    if n >= 10 {
      var s := Decimal(n / 10);
      DecimalValue(n / 10);
      DigitsValueSnoc(s, HexDigit(n % 10), 0, |s|);
      assert At(Decimal(n), |s|) == HexDigit(n % 10);
    }
  }

  /** `strtol` reads back every number the server writes in decimal. */
  lemma StrtolDecimal(n: nat)
    ensures Strtol(Decimal(n)) == n
  {
    DecimalIsDigits(n);
    DigitEndAll(Decimal(n), 0);
    DecimalValue(n);
  }

  // ---------------------------------------------------------------------
  // cheevos_get_value

  /** The userdata of the key lookup: whether the last key matched, and the value kept. */
  datatype ValueSearch = ValueSearch(isKey: bool, value: Option<string>)

  /** A scalar callback: keeps `t` when the previous key matched. */
  function Capture(ud: ValueSearch, t: string): ValueSearch
  {
    if ud.isKey then ValueSearch(false, Some(t)) else ud
  }

  function GetValueStep(ud: ValueSearch, keyHash: u32, e: Event): ValueSearch
  {
    match e
    case Key(name) => ud.(isKey := Djb2(name) == keyHash)
    case Str(t) => Capture(ud, t)
    case Number(t) => Capture(ud, t)
    case Boolean(b) => Capture(ud, if b then "true" else "false")
    case Null => Capture(ud, "null")
    case _ => ud
  }

  function GetValueFrom(ud: ValueSearch, keyHash: u32, events: seq<Event>): ValueSearch
    decreases |events|
  {
    if |events| == 0 then ud
    else GetValueStep(GetValueFrom(ud, keyHash, events[..|events| - 1]), keyHash, events[|events| - 1])
  }

  /**
   * `cheevos_get_value`: the value of the last key whose hash is `keyHash`,
   * provided it fits a buffer of `length` bytes with its terminator.
   */
  function GetValue(events: seq<Event>, keyHash: u32, length: nat): (r: Option<string>)
    ensures r.Some? ==> |r.value| < length
  {
    var ud := GetValueFrom(ValueSearch(false, None), keyHash, events);
    if ud.value.Some? && |ud.value.value| < length then ud.value else None
  }

  predicate IsScalar(e: Event)
  {
    e.Str? || e.Number? || e.Boolean? || e.Null?
  }

  /** The text a scalar event stands for. */
  function ScalarText(e: Event): string
    requires IsScalar(e)
  {
    match e
    case Str(t) => t
    case Number(t) => t
    case Boolean(b) => if b then "true" else "false"
    case Null => "null"
  }

  /** No key in `events` hashes to `keyHash`. */
  predicate NoKey(events: seq<Event>, keyHash: u32)
  {
    forall i :: 0 <= i < |events| && events[i].Key? ==> Djb2(events[i].name) != keyHash
  }

  lemma {:induction false} GetValueAppend(ud: ValueSearch, keyHash: u32, a: seq<Event>, b: seq<Event>)
    ensures GetValueFrom(ud, keyHash, a + b) == GetValueFrom(GetValueFrom(ud, keyHash, a), keyHash, b)
    decreases |b|
  {
    if |b| > 0 {
      var n := |b| - 1;
      assert (a + b)[..|a + b| - 1] == a + b[..n];
      GetValueAppend(ud, keyHash, a, b[..n]);
    } else {
      assert a + b == a;
    }
  }

  /** Without a matching key, a search that is not waiting for a value keeps what it has. */
  lemma {:induction false} GetValueQuiet(ud: ValueSearch, keyHash: u32, events: seq<Event>)
    requires !ud.isKey && NoKey(events, keyHash)
    ensures GetValueFrom(ud, keyHash, events) == ud
    decreases |events|
  {
    if |events| > 0 {
      var n := |events| - 1;
      assert NoKey(events[..n], keyHash) by {
        forall i | 0 <= i < n && events[..n][i].Key? ensures Djb2(events[..n][i].name) != keyHash {
          assert events[..n][i] == events[i];
        }
      }
      GetValueQuiet(ud, keyHash, events[..n]);
    }
  }

  /** The last matching key wins: its value is returned when it fits the buffer. */
  lemma LastKeyWins(pre: seq<Event>, key: string, v: Event, post: seq<Event>, keyHash: u32, length: nat)
    requires Djb2(key) == keyHash && IsScalar(v) && NoKey(post, keyHash)
    ensures GetValue(pre + [Key(key), v] + post, keyHash, length)
            == if |ScalarText(v)| < length then Some(ScalarText(v)) else None
  {
    var init := ValueSearch(false, None);
    GetValueAppend(init, keyHash, pre + [Key(key), v], post);
    GetValueAppend(init, keyHash, pre, [Key(key), v]);
    assert [Key(key), v][..1] == [Key(key)];
    assert GetValueFrom(GetValueFrom(init, keyHash, pre), keyHash, [Key(key), v]) == ValueSearch(false, Some(ScalarText(v)));
    GetValueQuiet(ValueSearch(false, Some(ScalarText(v))), keyHash, post);
  }

  /** A document without the key yields nothing. */
  lemma MissingKey(events: seq<Event>, keyHash: u32, length: nat)
    requires NoKey(events, keyHash)
    ensures GetValue(events, keyHash, length) == None
  {
    GetValueQuiet(ValueSearch(false, None), keyHash, events);
  }

  // ---------------------------------------------------------------------
  // cheevos_count_cheevos

  /** The userdata of the counting pass. */
  datatype CheevoCount = CheevoCount(inCheevos: bool, fieldHash: u32, core: nat, unofficial: nat)

  /**
   * How a flags value is counted: `AsWritten` counts 3 as core, 5 as
   * unofficial and nothing else; `Corrected` counts every achievement the
   * way the reading pass files it.
   */
  datatype Counting = AsWritten | Corrected

  predicate CountsCore(mode: Counting, t: string)
  {
    match mode
    case AsWritten => Strtol(t) == 3
    case Corrected => FlagsCore(t)
  }

  predicate CountsUnofficial(mode: Counting, t: string)
  {
    match mode
    case AsWritten => Strtol(t) == 5
    case Corrected => !FlagsCore(t)
  }

  function CountStep(ud: CheevoCount, e: Event, mode: Counting): CheevoCount
  {
    match e
    case EndArray => ud.(inCheevos := false)
    case Key(name) =>
      var h := Djb2(name);
      ud.(fieldHash := h, inCheevos := ud.inCheevos || h == KEY_ACHIEVEMENTS)
    case Number(t) =>
      if ud.inCheevos && ud.fieldHash == KEY_FLAGS then
        if CountsCore(mode, t) then ud.(core := ud.core + 1)
        else if CountsUnofficial(mode, t) then ud.(unofficial := ud.unofficial + 1)
        else ud
      else ud
    case _ => ud
  }

  function CountFrom(ud: CheevoCount, events: seq<Event>, mode: Counting): CheevoCount
    decreases |events|
  {
    if |events| == 0 then ud else CountStep(CountFrom(ud, events[..|events| - 1], mode), events[|events| - 1], mode)
  }

  /** `cheevos_count_cheevos`: the numbers of core and unofficial achievements. */
  function CountCheevos(events: seq<Event>, mode: Counting): CheevoCount
  {
    CountFrom(CheevoCount(false, 0, 0, 0), events, mode)
  }

  lemma {:induction false} CountAppend(ud: CheevoCount, a: seq<Event>, b: seq<Event>, mode: Counting)
    ensures CountFrom(ud, a + b, mode) == CountFrom(CountFrom(ud, a, mode), b, mode)
    decreases |b|
  {
    if |b| > 0 {
      var n := |b| - 1;
      assert (a + b)[..|a + b| - 1] == a + b[..n];
      CountAppend(ud, a, b[..n], mode);
    } else {
      assert a + b == a;
    }
  }

  // ---------------------------------------------------------------------
  // The reading pass

  /** The fields of an achievement object the reading pass records. */
  datatype Slot = IdSlot | MemaddrSlot | TitleSlot | DescSlot | PointsSlot | AuthorSlot
                | ModifiedSlot | CreatedSlot | BadgeSlot | FlagsSlot

  /** The slot a key inside the achievement array selects. */
  function SlotOf(h: u32): (r: Option<Slot>)
    ensures h == KEY_ACHIEVEMENTS || h == KEY_CONSOLE_ID ==> r.None?
  {
    if h == KEY_ID then Some(IdSlot)
    else if h == KEY_MEMADDR then Some(MemaddrSlot)
    else if h == KEY_TITLE then Some(TitleSlot)
    else if h == KEY_DESCRIPTION then Some(DescSlot)
    else if h == KEY_POINTS then Some(PointsSlot)
    else if h == KEY_AUTHOR then Some(AuthorSlot)
    else if h == KEY_MODIFIED then Some(ModifiedSlot)
    else if h == KEY_CREATED then Some(CreatedSlot)
    else if h == KEY_BADGENAME then Some(BadgeSlot)
    else if h == KEY_FLAGS then Some(FlagsSlot)
    else None
  }

  /** The texts last stored in each slot. */
  datatype Fields = Fields(id: string, memaddr: string, title: string, desc: string, points: string,
                           author: string, modified: string, created: string, badge: string, flags: string)

  /** The slots before anything was stored: modelled as empty texts. */
  const NO_FIELDS := Fields("", "", "", "", "", "", "", "", "", "")

  function Get(f: Fields, slot: Slot): string
  {
    match slot
    case IdSlot => f.id
    case MemaddrSlot => f.memaddr
    case TitleSlot => f.title
    case DescSlot => f.desc
    case PointsSlot => f.points
    case AuthorSlot => f.author
    case ModifiedSlot => f.modified
    case CreatedSlot => f.created
    case BadgeSlot => f.badge
    case FlagsSlot => f.flags
  }

  function Store(f: Fields, slot: Slot, t: string): (r: Fields)
    ensures Get(r, slot) == t
    ensures forall other :: other != slot ==> Get(r, other) == Get(f, other)
  {
    match slot
    case IdSlot => f.(id := t)
    case MemaddrSlot => f.(memaddr := t)
    case TitleSlot => f.(title := t)
    case DescSlot => f.(desc := t)
    case PointsSlot => f.(points := t)
    case AuthorSlot => f.(author := t)
    case ModifiedSlot => f.(modified := t)
    case CreatedSlot => f.(created := t)
    case BadgeSlot => f.(badge := t)
    case FlagsSlot => f.(flags := t)
  }

  /** The userdata of the reading pass; `field` is the slot the next scalar goes to. */
  datatype ReadState = ReadState(inCheevos: bool, isConsoleId: bool, consoleId: int, field: Option<Slot>, fields: Fields)

  /**
   * The reading pass so far: its userdata, the achievements created, in
   * order, and beside each the console id current when it was created (the
   * one its addresses are translated for).
   */
  datatype Loaded = Loaded(ud: ReadState, core: seq<Fields>, unofficial: seq<Fields>,
                           coreConsoles: seq<int>, unofficialConsoles: seq<int>)

  /** `cheevos_new_cheevo` sends flags 3 to the core achievements and every other value to the unofficial ones. */
  predicate IsCore(f: Fields)
  {
    FlagsCore(f.flags)
  }

  /** The flags value read into an `int`, as `cheevos_new_cheevo` does, is 3. */
  predicate FlagsCore(t: string)
  {
    Int32(Strtol(t)) == 3
  }

  /** The core records a finished object adds: itself when its flags read 3. */
  function CoreOf(f: Fields): seq<Fields>
  {
    if IsCore(f) then [f] else []
  }

  /** The unofficial records a finished object adds: itself when its flags do not read 3. */
  function UnofficialOf(f: Fields): seq<Fields>
  {
    if IsCore(f) then [] else [f]
  }

  /** A scalar of the reading pass: stored in the selected slot, if any. */
  function StoreScalar(ud: ReadState, t: string): ReadState
  {
    if ud.field.Some? then ud.(fields := Store(ud.fields, ud.field.value, t)) else ud
  }

  /** What the key, string, number and end-of-array handlers of the reading pass do to its userdata. */
  function ReadUd(ud: ReadState, e: Event): ReadState
  {
    match e
    case EndArray => ud.(inCheevos := false)
    case Key(name) =>
      var h := Djb2(name);
      var cleared := ud.(field := None);
      if h == KEY_ACHIEVEMENTS then cleared.(inCheevos := true)
      else if h == KEY_CONSOLE_ID then cleared.(isConsoleId := true)
      else if ud.inCheevos then cleared.(field := SlotOf(h))
      else cleared
    case Str(t) => StoreScalar(ud, t)
    case Number(t) =>
      if ud.field.Some? then StoreScalar(ud, t)
      else if ud.isConsoleId then ud.(consoleId := Int32(Strtol(t)), isConsoleId := false)
      else ud
    case _ => ud
  }

  /** One event of the reading pass: an object ending inside the achievements array is filed by `cheevos_new_cheevo`. */
  function ReadStep(st: Loaded, e: Event): Loaded
  {
    var ud := st.ud;
    if e.EndObject? then
      if ud.inCheevos then
        st.(core := st.core + CoreOf(ud.fields), unofficial := st.unofficial + UnofficialOf(ud.fields),
            coreConsoles := st.coreConsoles + (if IsCore(ud.fields) then [ud.consoleId] else []),
            unofficialConsoles := st.unofficialConsoles + (if IsCore(ud.fields) then [] else [ud.consoleId]))
      else st
    else st.(ud := ReadUd(ud, e))
  }

  function ReadFrom(st: Loaded, events: seq<Event>): Loaded
    decreases |events|
  {
    if |events| == 0 then st else ReadStep(ReadFrom(st, events[..|events| - 1]), events[|events| - 1])
  }

  /** The reading pass of `cheevos_parse` from the console id held before it. */
  function ReadCheevos(events: seq<Event>, consoleId: int): Loaded
  {
    ReadFrom(Loaded(ReadState(false, false, consoleId, None, NO_FIELDS), [], [], [], []), events)
  }

  lemma {:induction false} ReadAppend(st: Loaded, a: seq<Event>, b: seq<Event>)
    ensures ReadFrom(st, a + b) == ReadFrom(ReadFrom(st, a), b)
    decreases |b|
  {
    if |b| > 0 {
      var n := |b| - 1;
      assert (a + b)[..|a + b| - 1] == a + b[..n];
      ReadAppend(st, a, b[..n]);
    } else {
      assert a + b == a;
    }
  }

  // ---------------------------------------------------------------------
  // Patch documents and what the two passes make of them

  datatype Value = Text(text: string) | Num(text: string)

  /** A key and its scalar value. */
  datatype Member = Member(key: string, value: Value)

  /** An achievement object: its other members, then its flags as a number. */
  datatype Achievement = Achievement(members: seq<Member>, flags: string)

  function ValueEvent(v: Value): Event
  {
    match v
    case Text(t) => Str(t)
    case Num(t) => Number(t)
  }

  function MemberEvents(ms: seq<Member>): seq<Event>
    decreases |ms|
  {
    if |ms| == 0 then []
    else MemberEvents(ms[..|ms| - 1]) + [Key(ms[|ms| - 1].key), ValueEvent(ms[|ms| - 1].value)]
  }

  function ObjectEvents(a: Achievement): seq<Event>
  {
    [StartObject] + MemberEvents(a.members) + [Key("Flags"), Number(a.flags), EndObject]
  }

  function ArrayEvents(achievements: seq<Achievement>): seq<Event>
    decreases |achievements|
  {
    if |achievements| == 0 then []
    else ArrayEvents(achievements[..|achievements| - 1]) + ObjectEvents(achievements[|achievements| - 1])
  }

  /** A patch document: members of the outer object, then the achievement array. */
  function PatchEvents(head: seq<Member>, achievements: seq<Achievement>): seq<Event>
  {
    [StartObject] + MemberEvents(head) + [Key("Achievements"), StartArray] + ArrayEvents(achievements) + [EndArray, EndObject]
  }

  predicate NoMemberHash(ms: seq<Member>, h: u32)
  {
    forall i :: 0 <= i < |ms| ==> Djb2(ms[i].key) != h
  }

  /** The outer object has no second achievement array, and no achievement a second flags member. */
  predicate WellFormedPatch(head: seq<Member>, achievements: seq<Achievement>)
  {
    NoMemberHash(head, KEY_ACHIEVEMENTS)
    && forall i :: 0 <= i < |achievements| ==> NoMemberHash(achievements[i].members, KEY_FLAGS)
  }

  /** A member as the reading pass stores it. */
  function StoreMember(f: Fields, m: Member): Fields
  {
    match SlotOf(Djb2(m.key))
    case Some(slot) => Store(f, slot, m.value.text)
    case None => f
  }

  function ApplyMembers(f: Fields, ms: seq<Member>): Fields
    decreases |ms|
  {
    if |ms| == 0 then f else StoreMember(ApplyMembers(f, ms[..|ms| - 1]), ms[|ms| - 1])
  }

  /** The slots once an achievement object was read over the slots `f` of the previous one. */
  function Snapshot(f: Fields, a: Achievement): (r: Fields)
    ensures r.flags == a.flags
  {
    Store(ApplyMembers(f, a.members), FlagsSlot, a.flags)
  }

  function FieldsAfter(f: Fields, achievements: seq<Achievement>): Fields
    decreases |achievements|
  {
    if |achievements| == 0 then f
    else Snapshot(FieldsAfter(f, achievements[..|achievements| - 1]), achievements[|achievements| - 1])
  }

  /** The records the reading pass creates, one per achievement object, in order. */
  function Snapshots(f: Fields, achievements: seq<Achievement>): (r: seq<Fields>)
    ensures |r| == |achievements|
    ensures forall i :: 0 <= i < |r| ==> r[i].flags == achievements[i].flags
    decreases |achievements|
  {
    if |achievements| == 0 then []
    else
      var n := |achievements| - 1;
      var prev := Snapshots(f, achievements[..n]);
      assert forall i :: 0 <= i < n ==> prev[i].flags == achievements[i].flags;
      prev + [FieldsAfter(f, achievements)]
  }

  function Cores(records: seq<Fields>): seq<Fields>
    decreases |records|
  {
    if |records| == 0 then []
    else
      var last := records[|records| - 1];
      Cores(records[..|records| - 1]) + CoreOf(last)
  }

  function Unofficials(records: seq<Fields>): seq<Fields>
    decreases |records|
  {
    if |records| == 0 then []
    else
      var last := records[|records| - 1];
      Unofficials(records[..|records| - 1]) + UnofficialOf(last)
  }

  /** The number of achievements the counting pass counts as core. */
  function CoreTally(achievements: seq<Achievement>, mode: Counting): nat
    decreases |achievements|
  {
    if |achievements| == 0 then 0
    else
      var n := |achievements| - 1;
      CoreTally(achievements[..n], mode) + if CountsCore(mode, achievements[n].flags) then 1 else 0
  }

  /** The number of achievements the counting pass counts as unofficial. */
  function UnofficialTally(achievements: seq<Achievement>, mode: Counting): nat
    decreases |achievements|
  {
    if |achievements| == 0 then 0
    else
      var n := |achievements| - 1;
      UnofficialTally(achievements[..n], mode) + if CountsUnofficial(mode, achievements[n].flags) then 1 else 0
  }

  // Counting pass

  lemma CountPair(ud: CheevoCount, e1: Event, e2: Event, mode: Counting)
    ensures CountFrom(ud, [e1, e2], mode) == CountStep(CountStep(ud, e1, mode), e2, mode)
  {
    assert [e1, e2][..1] == [e1] && [e1][..0] == [];
    assert CountFrom(ud, [e1], mode) == CountStep(ud, e1, mode);
  }

  lemma CountTriple(ud: CheevoCount, e1: Event, e2: Event, e3: Event, mode: Counting)
    ensures CountFrom(ud, [e1, e2, e3], mode) == CountStep(CountStep(CountStep(ud, e1, mode), e2, mode), e3, mode)
  {
    assert [e1, e2, e3][..2] == [e1, e2];
    CountPair(ud, e1, e2, mode);
  }

  lemma {:induction false} CountMembers(ud: CheevoCount, ms: seq<Member>, mode: Counting)
    requires if ud.inCheevos then NoMemberHash(ms, KEY_FLAGS) else NoMemberHash(ms, KEY_ACHIEVEMENTS)
    ensures var r := CountFrom(ud, MemberEvents(ms), mode);
            r.inCheevos == ud.inCheevos && r.core == ud.core && r.unofficial == ud.unofficial
    decreases |ms|
  {
    if |ms| > 0 {
      var n := |ms| - 1;
      var m := ms[n];
      assert Djb2(m.key) != (if ud.inCheevos then KEY_FLAGS else KEY_ACHIEVEMENTS);
      assert if ud.inCheevos then NoMemberHash(ms[..n], KEY_FLAGS) else NoMemberHash(ms[..n], KEY_ACHIEVEMENTS) by {
        forall i | 0 <= i < n ensures ms[..n][i] == ms[i] {}
      }
      CountMembers(ud, ms[..n], mode);
      var pair := [Key(m.key), ValueEvent(m.value)];
      assert MemberEvents(ms) == MemberEvents(ms[..n]) + pair;
      CountAppend(ud, MemberEvents(ms[..n]), pair, mode);
      CountPair(CountFrom(ud, MemberEvents(ms[..n]), mode), Key(m.key), ValueEvent(m.value), mode);
    }
  }

  lemma CountObject(ud: CheevoCount, a: Achievement, mode: Counting)
    requires ud.inCheevos && NoMemberHash(a.members, KEY_FLAGS)
    ensures var r := CountFrom(ud, ObjectEvents(a), mode);
            r.inCheevos
            && r.core == ud.core + (if CountsCore(mode, a.flags) then 1 else 0)
            && r.unofficial == ud.unofficial + (if CountsUnofficial(mode, a.flags) then 1 else 0)
  {
    var tail := [Key("Flags"), Number(a.flags), EndObject];
    assert CountFrom(ud, [StartObject], mode) == ud by { assert [StartObject][..0] == []; }
    CountAppend(ud, [StartObject], MemberEvents(a.members), mode);
    CountAppend(ud, [StartObject] + MemberEvents(a.members), tail, mode);
    CountMembers(ud, a.members, mode);
    var mid := CountFrom(ud, [StartObject] + MemberEvents(a.members), mode);
    CountTriple(mid, Key("Flags"), Number(a.flags), EndObject, mode);
    FlagsKey();
  }

  lemma {:induction false} CountArray(ud: CheevoCount, achievements: seq<Achievement>, mode: Counting)
    requires ud.inCheevos
    requires forall i :: 0 <= i < |achievements| ==> NoMemberHash(achievements[i].members, KEY_FLAGS)
    ensures var r := CountFrom(ud, ArrayEvents(achievements), mode);
            r.inCheevos
            && r.core == ud.core + CoreTally(achievements, mode)
            && r.unofficial == ud.unofficial + UnofficialTally(achievements, mode)
    decreases |achievements|
  {
    if |achievements| > 0 {
      var n := |achievements| - 1;
      CountArray(ud, achievements[..n], mode);
      CountAppend(ud, ArrayEvents(achievements[..n]), ObjectEvents(achievements[n]), mode);
      CountObject(CountFrom(ud, ArrayEvents(achievements[..n]), mode), achievements[n], mode);
    }
  }

  /** The counting pass over a patch document counts each achievement once, by its flags. */
  lemma CountPatch(head: seq<Member>, achievements: seq<Achievement>, mode: Counting)
    requires WellFormedPatch(head, achievements)
    ensures CountCheevos(PatchEvents(head, achievements), mode).core == CoreTally(achievements, mode)
    ensures CountCheevos(PatchEvents(head, achievements), mode).unofficial == UnofficialTally(achievements, mode)
  {
    var ud0 := CheevoCount(false, 0, 0, 0);
    var e1 := [StartObject] + MemberEvents(head);
    var e2 := e1 + [Key("Achievements"), StartArray];
    var e3 := e2 + ArrayEvents(achievements);
    assert CountFrom(ud0, [StartObject], mode) == ud0 by { assert [StartObject][..0] == []; }
    CountAppend(ud0, [StartObject], MemberEvents(head), mode);
    CountMembers(ud0, head, mode);
    CountAppend(ud0, e1, [Key("Achievements"), StartArray], mode);
    CountPair(CountFrom(ud0, e1, mode), Key("Achievements"), StartArray, mode);
    AchievementsKey();
    CountAppend(ud0, e2, ArrayEvents(achievements), mode);
    CountArray(CountFrom(ud0, e2, mode), achievements, mode);
    CountAppend(ud0, e3, [EndArray, EndObject], mode);
    CountPair(CountFrom(ud0, e3, mode), EndArray, EndObject, mode);
  }

  // Reading pass

  lemma ReadPair(st: Loaded, e1: Event, e2: Event)
    ensures ReadFrom(st, [e1, e2]) == ReadStep(ReadStep(st, e1), e2)
  {
    assert [e1, e2][..1] == [e1] && [e1][..0] == [];
    assert ReadFrom(st, [e1]) == ReadStep(st, e1);
  }

  lemma ReadTriple(st: Loaded, e1: Event, e2: Event, e3: Event)
    ensures ReadFrom(st, [e1, e2, e3]) == ReadStep(ReadStep(ReadStep(st, e1), e2), e3)
  {
    assert [e1, e2, e3][..2] == [e1, e2];
    ReadPair(st, e1, e2);
  }

  /** One member: inside the array it is stored as `StoreMember` says; outside it changes no slot. */
  lemma ReadMember(st: Loaded, m: Member)
    requires !st.ud.inCheevos ==> Djb2(m.key) != KEY_ACHIEVEMENTS
    ensures var r := ReadFrom(st, [Key(m.key), ValueEvent(m.value)]);
            r.ud.inCheevos == st.ud.inCheevos && r.core == st.core && r.unofficial == st.unofficial
            && r.ud.fields == if st.ud.inCheevos then StoreMember(st.ud.fields, m) else st.ud.fields
  {
    ReadPair(st, Key(m.key), ValueEvent(m.value));
  }

  lemma {:induction false} ReadMembers(st: Loaded, ms: seq<Member>)
    requires !st.ud.inCheevos ==> NoMemberHash(ms, KEY_ACHIEVEMENTS)
    ensures var r := ReadFrom(st, MemberEvents(ms));
            r.ud.inCheevos == st.ud.inCheevos && r.core == st.core && r.unofficial == st.unofficial
            && r.ud.fields == if st.ud.inCheevos then ApplyMembers(st.ud.fields, ms) else st.ud.fields
    decreases |ms|
  {
    if |ms| > 0 {
      var n := |ms| - 1;
      assert !st.ud.inCheevos ==> NoMemberHash(ms[..n], KEY_ACHIEVEMENTS) by {
        forall i | 0 <= i < n ensures ms[..n][i] == ms[i] {}
      }
      ReadMembers(st, ms[..n]);
      var pair := [Key(ms[n].key), ValueEvent(ms[n].value)];
      assert MemberEvents(ms) == MemberEvents(ms[..n]) + pair;
      ReadAppend(st, MemberEvents(ms[..n]), pair);
      var mid := ReadFrom(st, MemberEvents(ms[..n]));
      ReadMember(mid, ms[n]);
      assert ApplyMembers(st.ud.fields, ms) == StoreMember(ApplyMembers(st.ud.fields, ms[..n]), ms[n]);
    }
  }

  /** The closing flags member and brace: the flags are stored and the record is filed by them. */
  lemma ReadFlagsTail(st: Loaded, flags: string)
    requires st.ud.inCheevos
    ensures var r := ReadFrom(st, [Key("Flags"), Number(flags), EndObject]);
            var snap := Store(st.ud.fields, FlagsSlot, flags);
            r.ud.inCheevos && r.ud.fields == snap
            && r.core == st.core + CoreOf(snap) && r.unofficial == st.unofficial + UnofficialOf(snap)
  {
    ReadTriple(st, Key("Flags"), Number(flags), EndObject);
    FlagsKey();
  }

  /** An achievement object: its slots become the snapshot, which joins the core or the unofficial records. */
  lemma ReadObject(st: Loaded, a: Achievement)
    requires st.ud.inCheevos
    ensures var r := ReadFrom(st, ObjectEvents(a));
            var snap := Snapshot(st.ud.fields, a);
            r.ud.inCheevos && r.ud.fields == snap
            && r.core == st.core + CoreOf(snap) && r.unofficial == st.unofficial + UnofficialOf(snap)
  {
    var head := [StartObject] + MemberEvents(a.members);
    assert ReadFrom(st, [StartObject]) == st by { assert [StartObject][..0] == []; }
    ReadAppend(st, [StartObject], MemberEvents(a.members));
    ReadMembers(st, a.members);
    ReadAppend(st, head, [Key("Flags"), Number(a.flags), EndObject]);
    ReadFlagsTail(ReadFrom(st, head), a.flags);
  }

  /** After the objects of the array, the slots are those the last object left. */
  lemma {:induction false} ReadArrayFields(st: Loaded, achievements: seq<Achievement>)
    requires st.ud.inCheevos
    ensures var r := ReadFrom(st, ArrayEvents(achievements));
            r.ud.inCheevos && r.ud.fields == FieldsAfter(st.ud.fields, achievements)
    decreases |achievements|
  {
    if |achievements| > 0 {
      var n := |achievements| - 1;
      ReadArrayFields(st, achievements[..n]);
      ReadAppend(st, ArrayEvents(achievements[..n]), ObjectEvents(achievements[n]));
      ReadObject(ReadFrom(st, ArrayEvents(achievements[..n])), achievements[n]);
    }
  }

  /** The array events split before their last object. */
  lemma ReadLastObject(st: Loaded, achievements: seq<Achievement>)
    requires |achievements| > 0
    ensures var n := |achievements| - 1;
            ReadFrom(st, ArrayEvents(achievements))
            == ReadFrom(ReadFrom(st, ArrayEvents(achievements[..n])), ObjectEvents(achievements[n]))
  {
    var n := |achievements| - 1;
    ReadAppend(st, ArrayEvents(achievements[..n]), ObjectEvents(achievements[n]));
  }

  /** One more achievement: its snapshot over the slots `g` of the previous ones joins the records, filed by its flags. */
  lemma FiledLast(f: Fields, achievements: seq<Achievement>, g: Fields)
    requires |achievements| > 0 && g == FieldsAfter(f, achievements[..|achievements| - 1])
    ensures var n := |achievements| - 1;
            Cores(Snapshots(f, achievements)) == Cores(Snapshots(f, achievements[..n])) + CoreOf(Snapshot(g, achievements[n]))
            && Unofficials(Snapshots(f, achievements)) == Unofficials(Snapshots(f, achievements[..n])) + UnofficialOf(Snapshot(g, achievements[n]))
  {
    var n := |achievements| - 1;
    var prev := Snapshots(f, achievements[..n]);
    assert Snapshots(f, achievements) == prev + [FieldsAfter(f, achievements)];
    assert (prev + [FieldsAfter(f, achievements)])[..n] == prev;
  }

  lemma Reassociate<T>(a: seq<T>, b: seq<T>, c: seq<T>)
    ensures a + b + c == a + (b + c)
  {
  }

  /** The objects of the array add their core records, in order. */
  lemma {:induction false} ReadArrayCore(st: Loaded, achievements: seq<Achievement>)
    requires st.ud.inCheevos
    ensures ReadFrom(st, ArrayEvents(achievements)).core == st.core + Cores(Snapshots(st.ud.fields, achievements))
    decreases |achievements|
  {
    if |achievements| > 0 {
      var n := |achievements| - 1;
      var f := st.ud.fields;
      var mid := ReadFrom(st, ArrayEvents(achievements[..n]));
      ReadArrayFields(st, achievements[..n]);
      ReadArrayCore(st, achievements[..n]);
      ReadLastObject(st, achievements);
      ReadObject(mid, achievements[n]);
      FiledLast(f, achievements, mid.ud.fields);
      Reassociate(st.core, Cores(Snapshots(f, achievements[..n])), CoreOf(Snapshot(mid.ud.fields, achievements[n])));
    }
  }

  /** The objects of the array add their unofficial records, in order. */
  lemma {:induction false} ReadArrayUnofficial(st: Loaded, achievements: seq<Achievement>)
    requires st.ud.inCheevos
    ensures ReadFrom(st, ArrayEvents(achievements)).unofficial == st.unofficial + Unofficials(Snapshots(st.ud.fields, achievements))
    decreases |achievements|
  {
    if |achievements| > 0 {
      var n := |achievements| - 1;
      var f := st.ud.fields;
      var mid := ReadFrom(st, ArrayEvents(achievements[..n]));
      ReadArrayFields(st, achievements[..n]);
      ReadArrayUnofficial(st, achievements[..n]);
      ReadLastObject(st, achievements);
      ReadObject(mid, achievements[n]);
      FiledLast(f, achievements, mid.ud.fields);
      Reassociate(st.unofficial, Unofficials(Snapshots(f, achievements[..n])), UnofficialOf(Snapshot(mid.ud.fields, achievements[n])));
    }
  }

  /**
   * The reading pass over a patch document creates one record per
   * achievement, in order, each holding the slots as left by its object over
   * those of the previous one; flags 3 go to the core records, all others to
   * the unofficial ones.
   */
  lemma ReadPatch(head: seq<Member>, achievements: seq<Achievement>, consoleId: int)
    requires WellFormedPatch(head, achievements)
    ensures ReadCheevos(PatchEvents(head, achievements), consoleId).core == Cores(Snapshots(NO_FIELDS, achievements))
    ensures ReadCheevos(PatchEvents(head, achievements), consoleId).unofficial == Unofficials(Snapshots(NO_FIELDS, achievements))
  {
    var st0 := Loaded(ReadState(false, false, consoleId, None, NO_FIELDS), [], [], [], []);
    var e1 := [StartObject] + MemberEvents(head);
    var e2 := e1 + [Key("Achievements"), StartArray];
    var e3 := e2 + ArrayEvents(achievements);
    assert ReadFrom(st0, [StartObject]) == st0 by { assert [StartObject][..0] == []; }
    ReadAppend(st0, [StartObject], MemberEvents(head));
    ReadMembers(st0, head);
    ReadAppend(st0, e1, [Key("Achievements"), StartArray]);
    ReadPair(ReadFrom(st0, e1), Key("Achievements"), StartArray);
    AchievementsKey();
    ReadAppend(st0, e2, ArrayEvents(achievements));
    ReadArrayCore(ReadFrom(st0, e2), achievements);
    ReadArrayUnofficial(ReadFrom(st0, e2), achievements);
    ReadAppend(st0, e3, [EndArray, EndObject]);
    ReadPair(ReadFrom(st0, e3), EndArray, EndObject);
  }

  // The two passes together

  /** Records filed by their flags: the core ones and the unofficial ones are those the corrected count finds. */
  lemma {:induction false} RecordCounts(records: seq<Fields>, achievements: seq<Achievement>)
    requires |records| == |achievements|
    requires forall i :: 0 <= i < |records| ==> records[i].flags == achievements[i].flags
    ensures |Cores(records)| == CoreTally(achievements, Corrected)
    ensures |Unofficials(records)| == UnofficialTally(achievements, Corrected)
    decreases |records|
  {
    if |records| > 0 {
      var n := |records| - 1;
      assert forall i :: 0 <= i < n ==> records[..n][i].flags == achievements[..n][i].flags;
      RecordCounts(records[..n], achievements[..n]);
    }
  }

  /**
   * The source's count never exceeds the corrected one on either side, and
   * matches it on both exactly when every flags value is 3 or 5.
   */
  lemma {:induction false} AsWrittenUndercounts(achievements: seq<Achievement>)
    ensures CoreTally(achievements, AsWritten) <= CoreTally(achievements, Corrected)
    ensures UnofficialTally(achievements, AsWritten) <= UnofficialTally(achievements, Corrected)
    ensures CoreTally(achievements, AsWritten) == CoreTally(achievements, Corrected)
            && UnofficialTally(achievements, AsWritten) == UnofficialTally(achievements, Corrected)
            <==> forall i :: 0 <= i < |achievements| ==> Strtol(achievements[i].flags) in {3, 5}
    decreases |achievements|
  {
    if |achievements| > 0 {
      var n := |achievements| - 1;
      AsWrittenUndercounts(achievements[..n]);
      forall i | 0 <= i < n ensures achievements[..n][i] == achievements[i] {}
    }
  }

  /**
   * The source's passes disagree: the records never fall short of the
   * slots the counting pass allocated, and fit them exactly only when every
   * flags value is 3 or 5; otherwise the reading pass writes past an array.
   */
  lemma PassesAgreeIffKnownFlags(head: seq<Member>, achievements: seq<Achievement>, consoleId: int)
    requires WellFormedPatch(head, achievements)
    ensures var read := ReadCheevos(PatchEvents(head, achievements), consoleId);
            var count := CountCheevos(PatchEvents(head, achievements), AsWritten);
            count.core <= |read.core| && count.unofficial <= |read.unofficial|
            && (count.core == |read.core| && count.unofficial == |read.unofficial|
                <==> forall i :: 0 <= i < |achievements| ==> Strtol(achievements[i].flags) in {3, 5})
  {
    ReadPatch(head, achievements, consoleId);
    CountPatch(head, achievements, AsWritten);
    RecordCounts(Snapshots(NO_FIELDS, achievements), achievements);
    AsWrittenUndercounts(achievements);
  }

  /** With the corrected classification, the counting pass sizes both arrays exactly. */
  lemma CorrectedCountsFit(head: seq<Member>, achievements: seq<Achievement>, consoleId: int)
    requires WellFormedPatch(head, achievements)
    ensures var read := ReadCheevos(PatchEvents(head, achievements), consoleId);
            var count := CountCheevos(PatchEvents(head, achievements), Corrected);
            count.core == |read.core| && count.unofficial == |read.unofficial|
  {
    ReadPatch(head, achievements, consoleId);
    CountPatch(head, achievements, Corrected);
    RecordCounts(Snapshots(NO_FIELDS, achievements), achievements);
  }

  /** One achievement whose flags read 4: counted nowhere, but filed as unofficial, one past the end of an empty array. */
  lemma UnknownFlagsOverflow(a: Achievement)
    requires a.members == [] && Strtol(a.flags) == 4
    ensures var events := PatchEvents([], [a]);
            CountCheevos(events, AsWritten).unofficial == 0 && |ReadCheevos(events, 0).unofficial| == 1
  {
    var achievements := [a];
    assert achievements[..0] == [];
    CountPatch([], achievements, AsWritten);
    ReadPatch([], achievements, 0);
    RecordCounts(Snapshots(NO_FIELDS, achievements), achievements);
  }

  /** One achievement whose flags read 4294967299: not 3 as a `long`, but 3 once stored in an `int`, so a core record is filed past the end. */
  lemma TruncatedFlagsOverflow(a: Achievement)
    requires a.members == [] && Strtol(a.flags) == 4294967299
    ensures var events := PatchEvents([], [a]);
            CountCheevos(events, AsWritten).core == 0 && |ReadCheevos(events, 0).core| == 1
  {
    var achievements := [a];
    assert achievements[..0] == [];
    CountPatch([], achievements, AsWritten);
    ReadPatch([], achievements, 0);
    RecordCounts(Snapshots(NO_FIELDS, achievements), achievements);
  }

  lemma BigFlags()
    ensures Strtol("4294967299") == 4294967299
  {
    var t := "4294967299";
    DigitEndAll(t, 0);
    assert DigitsValue(t, 0, 1, 10) == 4;
    assert DigitsValue(t, 0, 2, 10) == 42;
    assert DigitsValue(t, 0, 3, 10) == 429;
    assert DigitsValue(t, 0, 4, 10) == 4294;
    assert DigitsValue(t, 0, 5, 10) == 42949;
    assert DigitsValue(t, 0, 6, 10) == 429496;
    assert DigitsValue(t, 0, 7, 10) == 4294967;
    assert DigitsValue(t, 0, 8, 10) == 42949672;
    assert DigitsValue(t, 0, 9, 10) == 429496729;
    assert DigitsValue(t, 0, 10, 10) == 4294967299;
  }

  /** The two inputs that show the passes disagree: flags "4", and flags "4294967299". */
  lemma PassesDisagree()
    ensures CountCheevos(PatchEvents([], [Achievement([], "4")]), AsWritten).unofficial == 0
    ensures |ReadCheevos(PatchEvents([], [Achievement([], "4")]), 0).unofficial| == 1
    ensures CountCheevos(PatchEvents([], [Achievement([], "4294967299")]), AsWritten).core == 0
    ensures |ReadCheevos(PatchEvents([], [Achievement([], "4294967299")]), 0).core| == 1
  {
    assert Strtol("4") == 4 by { assert DigitEnd("4", 0, 10) == 1; }
    UnknownFlagsOverflow(Achievement([], "4"));
    BigFlags();
    TruncatedFlagsOverflow(Achievement([], "4294967299"));
  }

  /** The counting pass counts flags written as numbers only: a document without numbers counts nothing. */
  lemma {:induction false} CountIgnoresStrings(ud: CheevoCount, events: seq<Event>, mode: Counting)
    requires forall i :: 0 <= i < |events| ==> !events[i].Number?
    ensures CountFrom(ud, events, mode).core == ud.core && CountFrom(ud, events, mode).unofficial == ud.unofficial
    decreases |events|
  {
    if |events| > 0 {
      var n := |events| - 1;
      assert forall i :: 0 <= i < n ==> events[..n][i] == events[i];
      CountIgnoresStrings(ud, events[..n], mode);
    }
  }

  /** A document with one achievement whose flags are the JSON string "3". */
  function StringFlagsDocument(): seq<Event>
  {
    [StartObject, Key("Achievements"), StartArray, StartObject, Key("Flags"), Str("3"), EndObject, EndArray, EndObject]
  }

  /** The reading pass stores a string value too, and files that achievement as core. */
  lemma ReadStringFlags()
    ensures |ReadCheevos(StringFlagsDocument(), 0).core| == 1
  {
    var init := Loaded(ReadState(false, false, 0, None, NO_FIELDS), [], [], [], []);
    var head := StringFlagsDocument()[..5];
    var tail := [Str("3"), EndObject, EndArray, EndObject];
    assert head + tail == StringFlagsDocument();
    ReadAppend(init, head, tail);
    ReadOpensFlags();
    var st := ReadFrom(init, head);
    assert FlagsCore("3") by { assert Strtol("3") == 3 by { assert DigitEnd("3", 0, 10) == 1; } }
    var stored := StoreScalar(st.ud, "3");
    assert stored.fields == Store(st.ud.fields, FlagsSlot, "3");
    assert ReadUd(st.ud, Str("3")) == stored;
    assert ReadStep(st, Str("3")) == st.(ud := stored);
    var filed := ReadStep(ReadStep(st, Str("3")), EndObject);
    assert |filed.core| == 1;
    assert ReadFrom(st, tail[..2]) == filed by {
      assert tail[..2][..1] == [Str("3")];
      assert [Str("3")][..0] == [];
    }
    assert ReadFrom(st, tail) == ReadStep(ReadStep(filed, EndArray), EndObject) by {
      assert tail[..3][..2] == tail[..2];
    }
  }

  /** The opening events of that document leave the reading pass inside the array, at the flags key. */
  lemma ReadOpensFlags()
    ensures var st := ReadFrom(Loaded(ReadState(false, false, 0, None, NO_FIELDS), [], [], [], []), StringFlagsDocument()[..5]);
            st.core == [] && st.ud.inCheevos && st.ud.field == Some(FlagsSlot)
  {
    var events := StringFlagsDocument()[..5];
    AchievementsKey();
    FlagsKey();
    var st := Loaded(ReadState(false, false, 0, None, NO_FIELDS), [], [], [], []);
    var k := 0;
    while k < |events|
      invariant k <= |events|
      invariant st == ReadFrom(Loaded(ReadState(false, false, 0, None, NO_FIELDS), [], [], [], []), events[..k])
      invariant st.core == []
      invariant 2 <= k ==> st.ud.inCheevos
      invariant k == 5 ==> st.ud.field == Some(FlagsSlot)
    {
      assert events[..k + 1][..k] == events[..k];
      st := ReadStep(st, events[k]);
      k := k + 1;
    }
    assert events[..k] == events;
  }

  /**
   * Flags written as a JSON string: the counting pass counts numbers only,
   * while the reading pass stores strings too and files the achievement,
   * here as core, past the end of an empty array.
   */
  lemma StringFlagsOverflow()
    ensures CountCheevos(StringFlagsDocument(), AsWritten).core == 0
    ensures |ReadCheevos(StringFlagsDocument(), 0).core| == 1
  {
    CountIgnoresStrings(CheevoCount(false, 0, 0, 0), StringFlagsDocument(), AsWritten);
    ReadStringFlags();
  }

  lemma {:induction false} ApplyMembersKeeps(f: Fields, ms: seq<Member>, slot: Slot)
    requires forall j :: 0 <= j < |ms| ==> SlotOf(Djb2(ms[j].key)) != Some(slot)
    ensures Get(ApplyMembers(f, ms), slot) == Get(f, slot)
    decreases |ms|
  {
    if |ms| > 0 {
      var n := |ms| - 1;
      assert forall j :: 0 <= j < n ==> ms[..n][j] == ms[j];
      ApplyMembersKeeps(f, ms[..n], slot);
    }
  }

  lemma {:induction false} SnapshotsAt(f: Fields, achievements: seq<Achievement>, i: nat)
    requires i < |achievements|
    ensures Snapshots(f, achievements)[i] == FieldsAfter(f, achievements[..i + 1])
    decreases |achievements|
  {
    var n := |achievements| - 1;
    if i < n {
      SnapshotsAt(f, achievements[..n], i);
      assert achievements[..n][..i + 1] == achievements[..i + 1];
    } else {
      assert achievements[..i + 1] == achievements;
    }
  }

  /**
   * Slots are not cleared between achievements: a field an object does not
   * set keeps the value the previous achievement had.
   */
  lemma FieldInherited(f: Fields, achievements: seq<Achievement>, i: nat, slot: Slot)
    requires 0 < i < |achievements| && slot != FlagsSlot
    requires forall j :: 0 <= j < |achievements[i].members| ==> SlotOf(Djb2(achievements[i].members[j].key)) != Some(slot)
    ensures Get(Snapshots(f, achievements)[i], slot) == Get(Snapshots(f, achievements)[i - 1], slot)
  {
    SnapshotsAt(f, achievements, i);
    SnapshotsAt(f, achievements, i - 1);
    assert achievements[..i + 1][..i] == achievements[..i];
    ApplyMembersKeeps(FieldsAfter(f, achievements[..i]), achievements[i].members, slot);
  }
}
