/** The option object of src/opt.c: parsing a value for a key, reading it back, and the string for getopt. */
module Opt {
  import opened Wrappers
  import opened Octets
  import opened TextOrder
  import opened Options

  datatype Value = Num(i: int) | Str(s: Option<Text>)

  /** A record and its value slot. */
  datatype Slot = Slot(rec: OptRec, isSet: bool, val: Value)

  /** What the C library says of a text: the number all of it denotes, and equality but for case. */
  datatype Library = Library(number: Text -> Option<i64>, alike: (Text, Text) -> bool)

  datatype Flags = Flags(replace: bool, boolDef: bool, caseCmp: bool)

  /** How a caller names an option: by its short key or by its key. */
  datatype Name = Short(o: int) | Long(k: Text)

  predicate Matches(r: OptRec, name: Name) {
    match name
    case Short(o) => o != 0 && r.sKey == o
    case Long(k) => k != [] && k == r.key && r.key[0] < 0x80
  }

  // What a text means for a record.

  function Ascii(s: string): Text
    requires forall k :: 0 <= k < |s| ==> s[k] < 128 as char
  {
    seq(|s|, k requires 0 <= k < |s| => s[k] as int)
  }

  predicate SameName(lib: Library, fl: Flags, s: Text, name: Text) {
    if fl.caseCmp then s == name else lib.alike(s, name)
  }

  /** The words for no; the first is spelt as in the source. */
  predicate IsNo(lib: Library, s: Text) {
    lib.alike(s, Ascii("flase")) || lib.alike(s, Ascii("no")) || lib.alike(s, Ascii("off"))
    || lib.alike(s, Ascii("none")) || lib.alike(s, Ascii("null"))
  }

  predicate IsYes(lib: Library, s: Text) {
    lib.alike(s, Ascii("true")) || lib.alike(s, Ascii("on")) || lib.alike(s, Ascii("yes"))
  }

  /** Enumerator i goes by the name s. */
  predicate IsNamed(lib: Library, r: OptRec, fl: Flags, s: Text, i: int) {
    r.names.Some? && r.min <= i <= r.max && i in r.names.value && SameName(lib, fl, s, r.names.value[i])
  }

  /** The first enumerator from i on that goes by the name s. */
  function FirstNamed(lib: Library, r: OptRec, fl: Flags, s: Text, i: int): (v: Option<int>)
    requires r.names.Some? && r.min <= i
    ensures v.Some? ==> i <= v.value && IsNamed(lib, r, fl, s, v.value)
    ensures forall j :: i <= j && (v.Some? ==> j < v.value) ==> !IsNamed(lib, r, fl, s, j)
    decreases r.max - i
  {
    if i > r.max then None
    else if IsNamed(lib, r, fl, s, i) then Some(i)
    else FirstNamed(lib, r, fl, s, i + 1)
  }

  /** The value a text that is not empty gives a record; None if it gives none. */
  function Reading(lib: Library, r: OptRec, fl: Flags, s: Text): (v: Option<Value>)
    ensures v.Some? && (r.kind.IntOpt? || r.kind.EnumOpt?) ==> v.value.Num? && r.min <= v.value.i <= r.max
  {
    var n := lib.number(s);
    match r.kind
    case TextOpt => Some(Str(Some(s)))
    case IntOpt => if n.Some? && r.min <= n.value <= r.max then Some(Num(n.value)) else None
    case EnumOpt =>
      if n.Some? then (if r.min <= n.value <= r.max then Some(Num(n.value)) else None)
      else if r.names.None? then None
      else
        var i := FirstNamed(lib, r, fl, s, r.min);
        if i.Some? then Some(Num(i.value)) else None
    case BoolOpt =>
      if n.Some? then Some(Num(if n.value != 0 then 1 else 0))
      else if IsNo(lib, s) then Some(Num(0))
      else if IsYes(lib, s) then Some(Num(1))
      else None
    case InvOpt => None
  }

  /** parse_val: whether it succeeds, and the slot after it. */
  function ParseVal(lib: Library, t: Slot, s: Option<Text>, fl: Flags): (bool, Slot) {
    if !fl.replace && t.isSet then (true, t)
    else if t.rec.kind.BoolOpt? && fl.boolDef then (true, Slot(t.rec, true, Num(if t.rec.def == 0 then 1 else 0)))
    else if s.None? || s.value == [] then (false, t)
    else
      match Reading(lib, t.rec, fl, s.value)
      case None => (false, t)
      case Some(v) => (true, Slot(t.rec, true, v))
  }

  // What is stored, kind by kind.

  /** A value that is set stays without the replace flag; without a text nothing is parsed, unless the flag inverts a boolean's default. */
  lemma StoresWithoutText(lib: Library, t: Slot, s: Option<Text>, fl: Flags)
    ensures t.isSet && !fl.replace ==> ParseVal(lib, t, s, fl) == (true, t)
    ensures (!t.isSet || fl.replace) && t.rec.kind == BoolOpt && fl.boolDef && t.rec.def == 0 ==>
      ParseVal(lib, t, s, fl) == (true, Slot(t.rec, true, Num(1)))
    ensures (!t.isSet || fl.replace) && t.rec.kind == BoolOpt && fl.boolDef && t.rec.def != 0 ==>
      ParseVal(lib, t, s, fl) == (true, Slot(t.rec, true, Num(0)))
    ensures (!t.isSet || fl.replace) && !(t.rec.kind == BoolOpt && fl.boolDef) && (s == None || s == Some([])) ==>
      ParseVal(lib, t, s, fl) == (false, t)
  {
  }

  /** A text option stores the text; a record of an unknown kind takes none. */
  lemma StoresText(lib: Library, t: Slot, s: Text, fl: Flags)
    requires (!t.isSet || fl.replace) && s != []
    ensures t.rec.kind == TextOpt ==> ParseVal(lib, t, Some(s), fl) == (true, Slot(t.rec, true, Str(Some(s))))
    ensures t.rec.kind == InvOpt ==> ParseVal(lib, t, Some(s), fl) == (false, t)
  {
  }

  /** A number or enumerator stores a number in its range, and takes no other number; a number option takes no other text. */
  lemma StoresNumber(lib: Library, t: Slot, s: Text, fl: Flags)
    requires (!t.isSet || fl.replace) && s != [] && (t.rec.kind == IntOpt || t.rec.kind == EnumOpt)
    ensures var n := lib.number(s);
      && (n.Some? && t.rec.min <= n.value <= t.rec.max ==>
            ParseVal(lib, t, Some(s), fl) == (true, Slot(t.rec, true, Num(n.value))))
      && (n.Some? && !(t.rec.min <= n.value <= t.rec.max) ==> ParseVal(lib, t, Some(s), fl) == (false, t))
      && (n.None? && t.rec.kind == IntOpt ==> ParseVal(lib, t, Some(s), fl) == (false, t))
  {
    hide FirstNamed;
  }

  /** Enumerator i has a name, and s is this name, or is but for case without the flag. */
  predicate GoesBy(lib: Library, r: OptRec, fl: Flags, s: Text, i: i64) {
    && r.names.Some? && i in r.names.value
    && (s == r.names.value[i] || !fl.caseCmp) && (fl.caseCmp || lib.alike(s, r.names.value[i]))
  }

  /** A name stores the first enumerator in range that goes by it; without one, or without names, it is refused. */
  lemma StoresName(lib: Library, t: Slot, s: Text, fl: Flags, i: i64)
    requires (!t.isSet || fl.replace) && s != [] && t.rec.kind == EnumOpt && lib.number(s) == None
    requires t.rec.min <= i && forall j: i64 :: t.rec.min <= j < i && j <= t.rec.max ==> !GoesBy(lib, t.rec, fl, s, j)
    ensures i <= t.rec.max && GoesBy(lib, t.rec, fl, s, i) ==>
      ParseVal(lib, t, Some(s), fl) == (true, Slot(t.rec, true, Num(i)))
    ensures i == t.rec.max && !GoesBy(lib, t.rec, fl, s, i) ==> ParseVal(lib, t, Some(s), fl) == (false, t)
    ensures i > t.rec.max ==> ParseVal(lib, t, Some(s), fl) == (false, t)
  {
    forall j | t.rec.min <= j <= t.rec.max
      ensures GoesBy(lib, t.rec, fl, s, j) <==> IsNamed(lib, t.rec, fl, s, j)
    {
    }
  }

  /** A boolean stores 0 for the number 0 and 1 for any other, 0 for flase, no, off, none and null, 1 for true, on and yes. */
  lemma StoresBoolean(lib: Library, t: Slot, s: Text, fl: Flags)
    requires (!t.isSet || fl.replace) && s != [] && t.rec.kind == BoolOpt && !fl.boolDef
    ensures var r, n := ParseVal(lib, t, Some(s), fl), lib.number(s);
      var no :=
        || lib.alike(s, [102, 108, 97, 115, 101]) || lib.alike(s, [110, 111]) || lib.alike(s, [111, 102, 102])
        || lib.alike(s, [110, 111, 110, 101]) || lib.alike(s, [110, 117, 108, 108]);
      var yes := lib.alike(s, [116, 114, 117, 101]) || lib.alike(s, [111, 110]) || lib.alike(s, [121, 101, 115]);
      && (n == Some(0) || (n == None && no) ==> r == (true, Slot(t.rec, true, Num(0))))
      && ((n.Some? && n != Some(0)) || (n == None && !no && yes) ==> r == (true, Slot(t.rec, true, Num(1))))
      && (n == None && !no && !yes ==> r == (false, t))
  {
    WordsSpelt();
  }

  lemma WordsSpelt()
    ensures Ascii("flase") == [102, 108, 97, 115, 101] && Ascii("no") == [110, 111] && Ascii("off") == [111, 102, 102]
    ensures Ascii("none") == [110, 111, 110, 101] && Ascii("null") == [110, 117, 108, 108]
    ensures Ascii("true") == [116, 114, 117, 101] && Ascii("on") == [111, 110] && Ascii("yes") == [121, 101, 115]
  {
  }

  /** A call of parseSkey or parseKey. */
  datatype Call = Call(name: Name, s: Option<Text>, fl: Flags)

  /** The first slot of that name; the number of slots if there is none. */
  function First(ts: seq<Slot>, name: Name): (k: nat)
    ensures k <= |ts| && (k < |ts| ==> Matches(ts[k].rec, name))
    ensures forall j :: 0 <= j < k ==> !Matches(ts[j].rec, name)
  {
    if ts == [] || Matches(ts[0].rec, name) then 0 else First(ts[1..], name) + 1
  }

  function Parse(lib: Library, ts: seq<Slot>, c: Call): (r: (bool, seq<Slot>))
    ensures |r.1| == |ts|
  {
    var k := First(ts, c.name);
    if k == |ts| then (false, ts)
    else
      var p := ParseVal(lib, ts[k], c.s, c.fl);
      (p.0, ts[k := p.1])
  }

  /** The slot a call is for: the first with its short key, which is not 0, or its key, which is not empty. */
  lemma ParseFinds(lib: Library, ts: seq<Slot>, c: Call, k: nat)
    requires k < |ts|
    requires
      || (&& c.name == Short(ts[k].rec.sKey) && ts[k].rec.sKey != 0
          && forall j :: 0 <= j < k ==> ts[j].rec.sKey != ts[k].rec.sKey)
      || (&& c.name == Long(ts[k].rec.key) && ts[k].rec.key != [] && ts[k].rec.key[0] < 128
          && forall j :: 0 <= j < k ==> ts[j].rec.key != ts[k].rec.key)
    ensures First(ts, c.name) == k
    ensures var p := ParseVal(lib, ts[k], c.s, c.fl); Parse(lib, ts, c) == (p.0, ts[k := p.1])
  {
    hide ParseVal;
  }

  lemma ParseFindsNone(lib: Library, ts: seq<Slot>, c: Call)
    ensures c.name == Short(0) || c.name == Long([]) ==> First(ts, c.name) == |ts| && Parse(lib, ts, c) == (false, ts)
    ensures c.name.Short? && (forall t <- ts :: t.rec.sKey != c.name.o) ==> First(ts, c.name) == |ts| && Parse(lib, ts, c) == (false, ts)
    ensures c.name.Long? && c.name.k != [] && c.name.k[0] >= 128 ==> First(ts, c.name) == |ts| && Parse(lib, ts, c) == (false, ts)
    ensures c.name.Long? && (forall t <- ts :: t.rec.key != c.name.k) ==> First(ts, c.name) == |ts| && Parse(lib, ts, c) == (false, ts)
  {
    hide ParseVal;
  }

  function AfterCalls(lib: Library, ts: seq<Slot>, calls: seq<Call>): (r: seq<Slot>)
    ensures |r| == |ts|
  {
    if calls == [] then ts
    else Parse(lib, AfterCalls(lib, ts, calls[..|calls| - 1]), calls[|calls| - 1]).1
  }

  /** The value of an option: the one that was set, else the default. */
  function ValueOf(t: Slot): Value {
    if t.isSet then t.val
    else if t.rec.kind.TextOpt? then Str(t.rec.defText)
    else Num(t.rec.def)
  }

  /** A record that is not set has its default. */
  lemma ValueIs(t: Slot)
    ensures t.isSet ==> ValueOf(t) == t.val
    ensures !t.isSet && t.rec.kind == TextOpt ==> ValueOf(t) == Str(t.rec.defText)
    ensures !t.isSet && t.rec.kind != TextOpt ==> ValueOf(t) == Num(t.rec.def)
  {
  }

  // What runs of calls keep.

  lemma {:induction false} CallsAppend(lib: Library, ts: seq<Slot>, a: seq<Call>, b: seq<Call>)
    ensures AfterCalls(lib, ts, a + b) == AfterCalls(lib, AfterCalls(lib, ts, a), b)
  {
    if b == [] {
      assert a + b == a;
    } else {
      CallsAppend(lib, ts, a, b[..|b| - 1]);
      assert (a + b)[..|a + b| - 1] == a + b[..|b| - 1];
    }
  }

  lemma {:induction false} SetStays(lib: Library, ts: seq<Slot>, calls: seq<Call>, k: nat)
    requires k < |ts| && ts[k].isSet && forall i :: 0 <= i < |calls| ==> !calls[i].fl.replace
    ensures AfterCalls(lib, ts, calls)[k] == ts[k]
  {
    if calls != [] {
      SetStays(lib, ts, calls[..|calls| - 1], k);
    }
  }

  /** Without the replace flag an option keeps the first value that was parsed for it, whatever calls follow. */
  lemma {:induction false} FirstValueStays(lib: Library, ts: seq<Slot>, a: seq<Call>, c: Call, b: seq<Call>)
    requires forall i :: 0 <= i < |b| ==> !b[i].fl.replace
    requires First(AfterCalls(lib, ts, a), c.name) < |ts| && Parse(lib, AfterCalls(lib, ts, a), c).0
    ensures var k := First(AfterCalls(lib, ts, a), c.name);
      var t := AfterCalls(lib, ts, a + [c] + b)[k];
      t.isSet && t == AfterCalls(lib, ts, a + [c])[k]
  {
    hide First, ParseVal;
    var k := First(AfterCalls(lib, ts, a), c.name);
    assert (a + [c])[..|a|] == a;
    ParsedIsSet(lib, AfterCalls(lib, ts, a)[k], c);
    CallsAppend(lib, ts, a + [c], b);
    SetStays(lib, AfterCalls(lib, ts, a + [c]), b, k);
  }

  lemma ParsedIsSet(lib: Library, t: Slot, c: Call)
    requires ParseVal(lib, t, c.s, c.fl).0
    ensures ParseVal(lib, t, c.s, c.fl).1.isSet
  {
  }

  /** A number or enumerator that is set is in its range. */
  predicate InRange(t: Slot) {
    (t.rec.kind.IntOpt? || t.rec.kind.EnumOpt?) && t.isSet ==> t.val.Num? && t.rec.min <= t.val.i <= t.rec.max
  }

  /** Over every run of calls, with or without the replace flag, the value of an option is in range if its default is. */
  lemma {:induction false} ValuesInRange(lib: Library, ts: seq<Slot>, calls: seq<Call>, k: nat)
    requires k < |ts| && InRange(ts[k])
    ensures var t := AfterCalls(lib, ts, calls)[k];
      && t.rec == ts[k].rec && InRange(t)
      && ((t.rec.kind.IntOpt? || t.rec.kind.EnumOpt?) && t.rec.min <= t.rec.def <= t.rec.max ==>
            ValueOf(t).Num? && t.rec.min <= ValueOf(t).i <= t.rec.max)
  {
    hide First, Reading;
    if calls != [] {
      ValuesInRange(lib, ts, calls[..|calls| - 1], k);
    }
  }

  /** The records, their values being as they were allocated: not set. */
  function Unset(rs: seq<OptRec>): seq<Slot> {
    seq(|rs|, k requires 0 <= k < |rs| => Slot(rs[k], false, Num(0)))
  }

  // The string for getopt.

  const COLON: octet := 58

  function GetoptOf(ts: seq<Slot>): Text {
    if ts == [] then []
    else
      var n := |ts| - 1;
      var r := ts[n].rec;
      GetoptOf(ts[..n]) + if r.sKey <= 0 then [] else if r.kind.BoolOpt? then [r.sKey] else [r.sKey, COLON]
  }

  /** Record by record: nothing without a short key, the key of a boolean, and the key and a colon of any other. */
  lemma GetoptIs(a: seq<Slot>, b: seq<Slot>)
    ensures GetoptOf(a + b) == GetoptOf(a) + GetoptOf(b)
    ensures |a| == 1 && a[0].rec.sKey <= 0 ==> GetoptOf(a) == []
    ensures |a| == 1 && a[0].rec.sKey > 0 && a[0].rec.kind == BoolOpt ==> GetoptOf(a) == [a[0].rec.sKey]
    ensures |a| == 1 && a[0].rec.sKey > 0 && a[0].rec.kind != BoolOpt ==> GetoptOf(a) == [a[0].rec.sKey, 58]
  {
    GetoptJoins(a, b);
  }

  lemma {:induction false} GetoptJoins(a: seq<Slot>, b: seq<Slot>)
    ensures GetoptOf(a + b) == GetoptOf(a) + GetoptOf(b)
  {
    if b == [] {
      assert a + b == a;
    } else {
      var n := |b| - 1;
      GetoptJoins(a, b[..n]);
      assert (a + b)[..|a| + n] == a + b[..n];
    }
  }

  /** The string after n records. */
  function GetoptText(pre: Text, ts: seq<Slot>, n: nat): Text
    requires n <= |ts|
  {
    pre + GetoptOf(ts[..n])
  }

  lemma GetoptEnds(pre: Text, ts: seq<Slot>)
    ensures GetoptText(pre, ts, 0) == pre && GetoptText(pre, ts, |ts|) == pre + GetoptOf(ts)
    ensures |GetoptText(pre, ts, |ts|)| <= |pre| + 2 * |ts|
  {
    assert ts[..0] == [] && ts[..|ts|] == ts;
    GetoptLength(ts, |ts|);
  }

  lemma GetoptMore(pre: Text, ts: seq<Slot>, n: nat)
    requires n < |ts|
    ensures var r, text := ts[n].rec, GetoptText(pre, ts, n);
      GetoptText(pre, ts, n + 1) ==
        if r.sKey <= 0 then text else if r.kind.BoolOpt? then text + [r.sKey] else text + [r.sKey] + [COLON]
    ensures |GetoptText(pre, ts, n)| <= |pre| + 2 * n
  {
    assert ts[..n + 1][..n] == ts[..n];
    GetoptLength(ts, n);
  }

  lemma {:induction false} GetoptLength(ts: seq<Slot>, n: nat)
    requires n <= |ts|
    ensures |GetoptOf(ts[..n])| <= 2 * n
  {
    if n > 0 {
      GetoptLength(ts, n - 1);
      assert ts[..n][..n - 1] == ts[..n - 1];
    }
  }

  /** struct opt_t */
  class OptObject {
    const lib: Library
    var chain: Chain<Slot>
    var numRecords: nat
    var buff: array?<octet>

    ghost function Slots(): seq<Slot>
      reads this
    {
      Records(chain)
    }

    ghost predicate Valid()
      reads this
    {
      numRecords == |Slots()|
    }

    constructor (lib: Library)
      ensures Valid() && Slots() == [] && this.lib == lib && buff == null
    {
      this.lib := lib;
      chain, numRecords, buff := [], 0, null;
    }

    /** addRecords; mem says whether memory can be allocated. */
    method AddRecords(rs: seq<OptRec>, mem: bool) returns (ok: bool)
      requires Valid() && rs != []
      modifies this`chain, this`numRecords
      ensures Valid() && ok == mem
      ensures Slots() == if ok then old(Slots()) + Unset(rs) else old(Slots())
      ensures ok ==> |Slots()| == |old(Slots())| + |rs| && forall k :: 0 <= k < |rs| ==>
        Slots()[|old(Slots())| + k].rec == rs[k] && !Slots()[|old(Slots())| + k].isSet
    {
      if !mem {
        return false;
      }
      ghost var was := chain;
      chain := chain + [Unset(rs)];
      assert chain[..|chain| - 1] == was;
      numRecords := numRecords + |rs|;
      return true;
    }

    /** The loop of parseSkey, parseKey and the getters: the first record of that name. */
    method Seek(name: Name) returns (r: Option<(nat, nat)>)
      requires Valid()
      ensures r.None? <==> First(Slots(), name) == |Slots()|
      ensures r.Some? ==> r.value.0 < |chain| && r.value.1 < |chain[r.value.0]|
      ensures r.Some? ==> Position(chain, r.value.0, r.value.1) == First(Slots(), name)
      ensures r.Some? ==> chain[r.value.0][r.value.1] == Slots()[First(Slots(), name)]
    {
      hide Records, Position;
      if chain == [] {
        NoRecords();
        return None;
      }
      ghost var ts := Slots();
      var c: nat, i: nat := 0, 0;
      ghost var n := 0;
      NextRecVisits(chain, 0, 0);
      while true
        invariant c < |chain| && i < |chain[c]| && n == Position(chain, c, i) < |ts|
        invariant forall j :: 0 <= j < n ==> !Matches(ts[j].rec, name)
        decreases |ts| - n
      {
        NextRecVisits(chain, c, i);
        if Matches(chain[c][i].rec, name) {
          return Some((c, i));
        }
        var next := NextRec(chain, c, i);
        if next.None? {
          return None;
        }
        n := n + 1;
        c, i := next.value.0, next.value.1;
        NextRecVisits(chain, c, i);
      }
    }

    lemma NoRecords()
      ensures chain == [] ==> Records(chain) == []
    {
    }

    /** parseSkey and parseKey. */
    method ParseOption(name: Name, s: Option<Text>, fl: Flags) returns (ok: bool)
      requires Valid()
      modifies this`chain
      ensures Valid()
      ensures (ok, Slots()) == Parse(lib, old(Slots()), Call(name, s, fl))
    {
      hide Records, Position, First, ParseVal;
      var at := Seek(name);
      if at.None? {
        return false;
      }
      var (c, i) := at.value;
      var p := ParseSlot(chain[c][i], s, fl);
      RecordChanged(chain, c, i, p.1);
      chain := chain[c := chain[c][i := p.1]];
      return p.0;
    }

    /** parse_val, with its loop over the enumerators. */
    method ParseSlot(t: Slot, s: Option<Text>, fl: Flags) returns (p: (bool, Slot))
      ensures p == ParseVal(lib, t, s, fl)
    {
      if !(!fl.replace && t.isSet) && !(t.rec.kind.BoolOpt? && fl.boolDef) && s.Some? && s.value != []
        && t.rec.kind.EnumOpt? && lib.number(s.value).None? && t.rec.names.Some?
      {
        var i: int := t.rec.min;
        while i <= t.rec.max
          invariant t.rec.min <= i
          invariant FirstNamed(lib, t.rec, fl, s.value, t.rec.min) == FirstNamed(lib, t.rec, fl, s.value, i)
          decreases t.rec.max - i
        {
          if i in t.rec.names.value && SameName(lib, fl, s.value, t.rec.names.value[i]) {
            return (true, Slot(t.rec, true, Num(i)));
          }
          i := i + 1;
        }
        return (false, t);
      }
      return ParseVal(lib, t, s, fl);
    }

    /** getValSkey and getValKey. */
    method GetVal(name: Name) returns (v: Option<Value>)
      requires Valid()
      ensures var k := First(Slots(), name);
        v == if k == |Slots()| then None else Some(ValueOf(Slots()[k]))
    {
      hide Records, First;
      var at := Seek(name);
      if at.None? {
        return None;
      }
      return Some(ValueOf(chain[at.value.0][at.value.1]));
    }

    /**
     getopt: the pre-options, then the short keys, a colon after each that
     takes an argument, and a final zero, all within the octets allocated.  A
     string that was built before is returned again.
     */
    method Getopt(pre: Text, mem: bool) returns (r: array?<octet>)
      requires Valid()
      modifies this`buff
      ensures Valid() && buff == (if r == null then old(buff) else r)
      ensures numRecords == 0 ==> r == null
      ensures numRecords > 0 && old(buff) != null ==> r == old(buff)
      ensures numRecords > 0 && old(buff) == null && !mem ==> r == null
      ensures numRecords > 0 && old(buff) == null && mem ==> r != null && fresh(r)
      ensures numRecords > 0 && old(buff) == null && mem ==>
        var text := pre + GetoptOf(Slots());
        |text| < r.Length == 2 * numRecords + 1 + |pre| && r[..|text|] == text && r[|text|] == 0
    {
      hide Records, Position, GetoptOf, GetoptText;
      NoRecords();
      if chain == [] {
        return null;
      }
      NextRecVisits(chain, 0, 0);
      if buff != null {
        return buff;
      }
      if !mem {
        return null;
      }
      r := new octet[numRecords * 2 + 1 + |pre|];
      forall k | 0 <= k < |pre| {
        r[k] := pre[k];
      }
      assert r[..|pre|] == pre;
      buff := r;
      GetoptEnds(pre, Slots());
      var s := WriteKeys(r, pre);
      r[s] := 0;
      assert r[..s] == pre + GetoptOf(Slots());
    }

    /** The loop of getopt, after the pre-options. */
    method WriteKeys(r: array<octet>, pre: Text) returns (s: nat)
      requires Valid() && chain != [] && r.Length == 2 * numRecords + 1 + |pre| && r[..|pre|] == pre
      modifies r
      ensures s < r.Length && r[..s] == GetoptText(pre, Slots(), |Slots()|)
    {
      hide Records, Position, GetoptOf, GetoptText;
      ghost var ts := Slots();
      s := |pre|;
      var c: nat, i: nat := 0, 0;
      ghost var n := 0;
      NextRecVisits(chain, 0, 0);
      GetoptEnds(pre, ts);
      while true
        invariant c < |chain| && i < |chain[c]| && n == Position(chain, c, i) < |ts|
        invariant s < r.Length && r[..s] == GetoptText(pre, ts, n)
        decreases |ts| - n
      {
        NextRecVisits(chain, c, i);
        GetoptMore(pre, ts, n);
        var a := chain[c][i].rec;
        if a.sKey > 0 {
          s := Append(r, s, a.sKey);
          if !a.kind.BoolOpt? {
            s := Append(r, s, COLON);
          }
        }
        var next := NextRec(chain, c, i);
        if next.None? {
          return;
        }
        n := n + 1;
        c, i := next.value.0, next.value.1;
        NextRecVisits(chain, c, i);
      }
    }

    /** r[s++] = x */
    static method Append(r: array<octet>, s: nat, x: octet) returns (s': nat)
      requires s + 1 < r.Length
      modifies r
      ensures s' == s + 1 && r[..s'] == old(r[..s]) + [x]
    {
      r[s] := x;
      s' := s + 1;
      assert r[..s'] == r[..s] + [x];
    }
  }
}
