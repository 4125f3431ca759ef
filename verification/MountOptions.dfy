/**
 The mount options of fs/inode_orig.c: parsing, remounting and printing them. The build has
 CONFIG_DEVPTS_MULTIPLE_INSTANCES; user ids are those of the initial user namespace.
 */
module MountOptions {
  import opened Common
  import opened Numbers

  const EINVAL: int := 22
  const DEVPTS_DEFAULT_MODE: int := 384       // 0600
  const DEVPTS_DEFAULT_PTMX_MODE: int := 0
  const NR_UNIX98_PTY_MAX: int := 0x10_0000   // 1 << MINORBITS
  const S_IALLUGO_LIMIT: int := 4096          // option & 07777 is option mod 4096
  const INVALID_ID: int := 0xFFFF_FFFF
  const S_IFCHR: int := 8192                  // 020000; its bits and those of a mode are disjoint

  datatype Operation = PARSE_MOUNT | PARSE_REMOUNT

  datatype Opts = Opts(setuid: bool, setgid: bool, uid: int, gid: int, mode: int, ptmxmode: int,
                       newinstance: bool, max: int)

  /** match_token: the first pattern that fits the whole text. */
  datatype Token = OptUid(arg: string) | OptGid(arg: string) | OptMode(arg: string) | OptPtmxmode(arg: string)
                 | OptNewinstance | OptMax(arg: string) | OptErr

  function MatchToken(p: string): Token {
    if "uid=" <= p && IsUnsigned(p[4..]) then OptUid(p[4..])
    else if "gid=" <= p && IsUnsigned(p[4..]) then OptGid(p[4..])
    else if "mode=" <= p && IsOctal(p[5..]) then OptMode(p[5..])
    else if "ptmxmode=" <= p && IsOctal(p[9..]) then OptPtmxmode(p[9..])
    else if p == "newinstance" then OptNewinstance
    else if "max=" <= p && IsSigned(p[4..]) then OptMax(p[4..])
    else OptErr
  }

  /** make_kuid and make_kgid in the initial namespace: 32 bits, all ones invalid. */
  function MakeId(option: int): Option<int> {
    var id := option % 0x1_0000_0000;
    if id == INVALID_ID then None else Some(id)
  }

  function IdOf(arg: string): Option<int>
    requires IsSigned(arg)
  {
    match MatchInt(arg)
    case None => None
    case Some(v) => MakeId(v)
  }

  function ModeOf(arg: string): Option<int>
    requires IsOctal(arg)
  {
    match MatchOctal(arg)
    case None => None
    case Some(v) => Some(v % S_IALLUGO_LIMIT)
  }

  function MaxOf(arg: string): Option<int>
    requires IsSigned(arg)
  {
    match MatchInt(arg)
    case None => None
    case Some(v) => if v < 0 || v > NR_UNIX98_PTY_MAX then None else Some(v)
  }

  /** One option; None is -EINVAL. */
  function ApplyOption(o: Opts, op: Operation, p: string): Option<Opts> {
    match MatchToken(p)
    case OptUid(arg) => (match IdOf(arg) case None => None case Some(v) => Some(o.(uid := v, setuid := true)))
    case OptGid(arg) => (match IdOf(arg) case None => None case Some(v) => Some(o.(gid := v, setgid := true)))
    case OptMode(arg) => (match ModeOf(arg) case None => None case Some(v) => Some(o.(mode := v)))
    case OptPtmxmode(arg) => (match ModeOf(arg) case None => None case Some(v) => Some(o.(ptmxmode := v)))
    case OptNewinstance => Some(if op.PARSE_MOUNT? then o.(newinstance := true) else o)
    case OptMax(arg) => (match MaxOf(arg) case None => None case Some(v) => Some(o.(max := v)))
    case OptErr => None
  }

  // ---- strsep and the parse loop ----

  function FirstComma(s: string): (i: nat)
    ensures i <= |s| && ',' !in s[..i] && (i < |s| ==> s[i] == ',')
  {
    if s == [] || s[0] == ',' then 0
    else
      var i := FirstComma(s[1..]);
      assert s[..i + 1] == [s[0]] + s[1..][..i];
      i + 1
  }

  function Rest(s: string): Option<string> {
    var i := FirstComma(s);
    if i < |s| then Some(s[i + 1..]) else None
  }

  function Left(data: Option<string>): nat {
    match data
    case None => 0
    case Some(s) => |s| + 1
  }

  /** The options and error after the rest of the text: on an error the options read so far stay. */
  function ParseFrom(o: Opts, op: Operation, data: Option<string>): (Opts, int)
    decreases Left(data)
  {
    match data
    case None => (o, 0)
    case Some(s) =>
      var p := s[..FirstComma(s)];
      if p == "" then ParseFrom(o, op, Rest(s))
      else
        match ApplyOption(o, op, p)
        case None => (o, -EINVAL)
        case Some(o') => ParseFrom(o', op, Rest(s))
  }

  function Defaults(newinstance: bool): Opts {
    Opts(false, false, 0, 0, DEVPTS_DEFAULT_MODE, DEVPTS_DEFAULT_PTMX_MODE, newinstance, NR_UNIX98_PTY_MAX)
  }

  function Parse(prev: Opts, op: Operation, data: Option<string>): (Opts, int) {
    ParseFrom(Defaults(op.PARSE_REMOUNT? && prev.newinstance), op, data)
  }

  // ---- printing ----

  function ShowUid(o: Opts): string
    requires 0 <= o.uid
  {
    if o.setuid then ",uid=" + Print(o.uid, 10) else ""
  }

  function ShowGid(o: Opts): string
    requires 0 <= o.gid
  {
    if o.setgid then ",gid=" + Print(o.gid, 10) else ""
  }

  function ShowMax(o: Opts): string
    requires 0 <= o.max
  {
    if o.max < NR_UNIX98_PTY_MAX then ",max=" + Print(o.max, 10) else ""
  }

  function Show(o: Opts): string
    requires Produced(o)
  {
    ShowUid(o) + ShowGid(o) + (",mode=" + PrintOctal3(o.mode)) + (",ptmxmode=" + PrintOctal3(o.ptmxmode)) + ShowMax(o)
  }

  // ---- in place ----

  /** seq_file: output is appended. */
  class SeqFile {
    var text: string

    constructor ()
      ensures text == ""
    {
      text := "";
    }

    method Printf(s: string)
      modifies this
      ensures text == old(text) + s
    {
      text := text + s;
    }
  }

  /** struct pts_fs_info, as far as its options go. */
  class PtsFsInfo {
    var opts: Opts
    var ptmxMode: Option<int> // the mode of the ptmx inode, once there is one

    /** new_pts_fs_info: zeroed, but for the modes. */
    constructor ()
      ensures opts == Defaults(false).(max := 0) && ptmxMode == None
    {
      ptmxMode := None;
      opts := Opts(false, false, 0, 0, DEVPTS_DEFAULT_MODE, DEVPTS_DEFAULT_PTMX_MODE, false, 0);
    }

    method ParseMountOptions(data: Option<string>, op: Operation) returns (err: int)
      modifies this`opts
      ensures (opts, err) == Parse(old(opts), op, data)
    {
      opts := opts.(setuid := false, setgid := false, uid := 0, gid := 0, mode := DEVPTS_DEFAULT_MODE,
                    ptmxmode := DEVPTS_DEFAULT_PTMX_MODE, max := NR_UNIX98_PTY_MAX);
      if op == PARSE_MOUNT {
        opts := opts.(newinstance := false);
      }
      var rest := data;
      ghost var goal := ParseFrom(opts, op, data);
      while rest.Some?
        invariant ParseFrom(opts, op, rest) == goal
        decreases Left(rest)
      {
        var i := FirstComma(rest.value);
        var p := rest.value[..i];
        rest := Rest(rest.value);
        if p == "" {
          continue;
        }
        match ApplyOption(opts, op, p) {
          case None => return -EINVAL;
          case Some(o) => opts := o;
        }
      }
      err := 0;
    }

    /** The ptmx inode follows the options also when the parse fails. */
    method Remount(data: Option<string>) returns (err: int)
      modifies this
      ensures (opts, err) == Parse(old(opts), PARSE_REMOUNT, data)
      ensures ptmxMode == if old(ptmxMode).Some? then Some(S_IFCHR + opts.ptmxmode) else None
    {
      err := ParseMountOptions(data, PARSE_REMOUNT);
      UpdatePtmxMode();
    }

    method UpdatePtmxMode()
      modifies this`ptmxMode
      ensures ptmxMode == if old(ptmxMode).Some? then Some(S_IFCHR + opts.ptmxmode) else None
    {
      if ptmxMode.Some? {
        ptmxMode := Some(S_IFCHR + opts.ptmxmode);
      }
    }

    method ShowOptions(out: SeqFile)
      requires Produced(opts)
      modifies out
      ensures out.text == old(out.text) + Show(opts)
    {
      hide Print, PrintOctal3;
      ghost var was := out.text;
      ghost var u, g, m, x, z := ShowUid(opts), ShowGid(opts), ",mode=" + PrintOctal3(opts.mode),
                                 ",ptmxmode=" + PrintOctal3(opts.ptmxmode), ShowMax(opts);
      if opts.setuid {
        out.Printf(",uid=" + Print(opts.uid, 10));
      }
      assert out.text == was + u;
      if opts.setgid {
        out.Printf(",gid=" + Print(opts.gid, 10));
      }
      Regroup(was, u, g);
      assert out.text == was + (u + g);
      out.Printf(",mode=" + PrintOctal3(opts.mode));
      Regroup(was, u + g, m);
      out.Printf(",ptmxmode=" + PrintOctal3(opts.ptmxmode));
      Regroup(was, u + g + m, x);
      if opts.max < NR_UNIX98_PTY_MAX {
        out.Printf(",max=" + Print(opts.max, 10));
      }
      Regroup(was, u + g + m + x, z);
    }
  }

  lemma Regroup(a: string, b: string, c: string)
    ensures a + b + c == a + (b + c) && a + b + "" == a + b
  {
  }

  // ---- what a parse can produce ----

  predicate Produced(o: Opts) {
    && (!o.setuid ==> o.uid == 0) && 0 <= o.uid < INVALID_ID
    && (!o.setgid ==> o.gid == 0) && 0 <= o.gid < INVALID_ID
    && 0 <= o.mode < S_IALLUGO_LIMIT && 0 <= o.ptmxmode < S_IALLUGO_LIMIT
    && 0 <= o.max <= NR_UNIX98_PTY_MAX
  }

  lemma ApplyProduces(o: Opts, op: Operation, p: string)
    requires Produced(o) && ApplyOption(o, op, p).Some?
    ensures var o' := ApplyOption(o, op, p).value;
            Produced(o') && (op.PARSE_REMOUNT? ==> o'.newinstance == o.newinstance)
  {
    hide MatchToken, MatchInt, MatchOctal, IsSigned, IsUnsigned, IsOctal;
  }

  /** Whatever the text, and even on an error, the record left behind is in range, ids are unset
      unless their flag is, and a remount never changes `newinstance`. */
  lemma {:induction false} ParseProduces(o: Opts, op: Operation, data: Option<string>)
    requires Produced(o)
    ensures Produced(ParseFrom(o, op, data).0)
    ensures op.PARSE_REMOUNT? ==> ParseFrom(o, op, data).0.newinstance == o.newinstance
    ensures ParseFrom(o, op, data).1 == 0 || ParseFrom(o, op, data).1 == -EINVAL
    decreases Left(data)
  {
    hide ApplyOption, Produced;
    match data
    case None =>
    case Some(s) =>
      var p := s[..FirstComma(s)];
      if p != "" && ApplyOption(o, op, p).Some? { ApplyProduces(o, op, p); }
      if p == "" {
        ParseProduces(o, op, Rest(s));
      } else if ApplyOption(o, op, p).Some? {
        ParseProduces(ApplyOption(o, op, p).value, op, Rest(s));
      }
  }

  // ---- a parse as a fold over options ----

  /** Applying options one after the other, up to the first bogus one. */
  function ApplyAll(o: Opts, op: Operation, ts: seq<string>): (Opts, int)
    decreases |ts|
  {
    if ts == [] then (o, 0)
    else
      match ApplyOption(o, op, ts[0])
      case None => (o, -EINVAL)
      case Some(o') => ApplyAll(o', op, ts[1..])
  }

  /** Options as text, each behind a comma. */
  function Commas(ts: seq<string>): string
    decreases |ts|
  {
    if ts == [] then "" else "," + ts[0] + Commas(ts[1..])
  }

  predicate Plain(ts: seq<string>) {
    forall i :: 0 <= i < |ts| ==> ts[i] != "" && ',' !in ts[i]
  }

  lemma {:induction false} FirstCommaIs(s: string, i: nat)
    requires i <= |s| && ',' !in s[..i] && (i < |s| ==> s[i] == ',')
    ensures FirstComma(s) == i
  {
    if i > 0 {
      assert s[..i][0] == s[0] && s[..i][1..] == s[1..][..i - 1];
      FirstCommaIs(s[1..], i - 1);
    }
  }

  /** A leading comma is skipped. */
  lemma SkipComma(o: Opts, op: Operation, u: string)
    ensures ParseFrom(o, op, Some("," + u)) == ParseFrom(o, op, Some(u))
  {
    hide ApplyOption;
    var s := "," + u;
    FirstCommaIs(s, 0);
    assert s[..0] == "" && s[0 + 1..] == u;
  }

  /** The first option of a text, then the rest. */
  lemma OneOption(o: Opts, op: Operation, t: string, tail: string)
    requires t != "" && ',' !in t && (tail != "" ==> tail[0] == ',')
    ensures ParseFrom(o, op, Some(t + tail)) ==
            match ApplyOption(o, op, t) case None => (o, -EINVAL) case Some(o') => ParseFrom(o', op, Some(tail))
  {
    hide ApplyOption;
    var u := t + tail;
    assert u[..|t|] == t;
    FirstCommaIs(u, |t|);
    if ApplyOption(o, op, t).Some? {
      var o' := ApplyOption(o, op, t).value;
      if tail == "" {
        assert FirstComma(tail) == 0 && tail[..0] == "";
      } else {
        assert tail == "," + tail[1..] && u[|t| + 1..] == tail[1..];
        SkipComma(o', op, tail[1..]);
      }
    }
  }

  /** Parsing comma-separated options is applying them in order. */
  lemma {:induction false} ParseIsFold(o: Opts, op: Operation, ts: seq<string>)
    requires Plain(ts)
    ensures ParseFrom(o, op, Some(Commas(ts))) == ApplyAll(o, op, ts)
    decreases |ts|
  {
    hide ApplyOption;
    if ts == [] {
      assert FirstComma("") == 0 && ""[..0] == "";
    } else {
      var t, tail := ts[0], Commas(ts[1..]);
      assert "," + t + tail == "," + (t + tail);
      SkipComma(o, op, t + tail);
      OneOption(o, op, t, tail);
      if ApplyOption(o, op, t).Some? {
        ParseIsFold(ApplyOption(o, op, t).value, op, ts[1..]);
      }
    }
  }

  // ---- printing, then parsing ----

  /** The options Show prints. */
  function Printed(o: Opts): seq<string>
    requires Produced(o)
  {
    (if o.setuid then ["uid=" + Print(o.uid, 10)] else [])
    + (if o.setgid then ["gid=" + Print(o.gid, 10)] else [])
    + ["mode=" + PrintOctal3(o.mode), "ptmxmode=" + PrintOctal3(o.ptmxmode)]
    + (if o.max < NR_UNIX98_PTY_MAX then ["max=" + Print(o.max, 10)] else [])
  }

  lemma {:induction false} CommasAppend(a: seq<string>, b: seq<string>)
    ensures Commas(a + b) == Commas(a) + Commas(b)
    decreases |a|
  {
    if a == [] {
      assert a + b == b;
    } else {
      assert (a + b)[1..] == a[1..] + b;
      CommasAppend(a[1..], b);
    }
  }

  lemma CommasOne(t: string)
    ensures Commas([t]) == "," + t
  {
    assert [t][1..] == [];
  }

  lemma CommasNone()
    ensures Commas([]) == ""
  {
  }

  lemma ShowIsCommas(o: Opts)
    requires Produced(o)
    ensures Show(o) == Commas(Printed(o))
  {
    hide Print, PrintOctal3, Commas;
    var u := if o.setuid then ["uid=" + Print(o.uid, 10)] else [];
    var g := if o.setgid then ["gid=" + Print(o.gid, 10)] else [];
    var m, x := "mode=" + PrintOctal3(o.mode), "ptmxmode=" + PrintOctal3(o.ptmxmode);
    var z := if o.max < NR_UNIX98_PTY_MAX then ["max=" + Print(o.max, 10)] else [];
    assert Printed(o) == u + g + [m] + [x] + z;
    CommasAppend(u + g + [m] + [x], z);
    CommasAppend(u + g + [m], [x]);
    CommasAppend(u + g, [m]);
    CommasAppend(u, g);
    assert Commas([]) == "" by { CommasNone(); }
    CommasOne(m);
    CommasOne(x);
    CommasOne("uid=" + Print(o.uid, 10));
    CommasOne("gid=" + Print(o.gid, 10));
    CommasOne("max=" + Print(o.max, 10));
    assert "," + ("uid=" + Print(o.uid, 10)) == ",uid=" + Print(o.uid, 10);
    assert "," + ("gid=" + Print(o.gid, 10)) == ",gid=" + Print(o.gid, 10);
    assert "," + ("max=" + Print(o.max, 10)) == ",max=" + Print(o.max, 10);
    assert "," + m == ",mode=" + PrintOctal3(o.mode) && "," + x == ",ptmxmode=" + PrintOctal3(o.ptmxmode);
  }

  /** Reading back one printed option. */
  lemma PrintedUid(o: Opts, op: Operation, n: nat)
    requires n < INVALID_ID
    ensures var t := "uid=" + Print(n, 10);
            ',' !in t && ApplyOption(o, op, t) == if n <= INT_MAX then Some(o.(uid := n, setuid := true)) else None
  {
    hide Print, IsUnsigned, MatchInt;
    var t := "uid=" + Print(n, 10);
    assert t[4..] == Print(n, 10);
    DecimalReadsBack(n);
    PrintShape(n, 10);
    assert IsSigned(t[4..]);
  }

  lemma PrintedGid(o: Opts, op: Operation, n: nat)
    requires n < INVALID_ID
    ensures var t := "gid=" + Print(n, 10);
            ',' !in t && ApplyOption(o, op, t) == if n <= INT_MAX then Some(o.(gid := n, setgid := true)) else None
  {
    hide Print, IsUnsigned, MatchInt;
    var t := "gid=" + Print(n, 10);
    assert t[4..] == Print(n, 10) && t[0] == 'g';
    DecimalReadsBack(n);
    PrintShape(n, 10);
    assert IsSigned(t[4..]);
  }

  lemma PrintedMax(o: Opts, op: Operation, n: nat)
    requires n <= NR_UNIX98_PTY_MAX
    ensures var t := "max=" + Print(n, 10);
            ',' !in t && ApplyOption(o, op, t) == Some(o.(max := n))
  {
    hide Print, IsUnsigned, MatchInt;
    var t := "max=" + Print(n, 10);
    assert t[4..] == Print(n, 10) && t[0] == 'm' && t[1] == 'a';
    DecimalReadsBack(n);
    PrintShape(n, 10);
    assert IsSigned(t[4..]);
  }

  lemma PrintedModes(o: Opts, op: Operation, n: nat)
    requires n < S_IALLUGO_LIMIT
    ensures var t := "mode=" + PrintOctal3(n);
            ',' !in t && ApplyOption(o, op, t) == Some(o.(mode := n))
    ensures var t := "ptmxmode=" + PrintOctal3(n);
            ',' !in t && ApplyOption(o, op, t) == Some(o.(ptmxmode := n))
  {
    hide PrintOctal3, IsOctal, MatchOctal;
    OctalReadsBack(n);
    var t, u := "mode=" + PrintOctal3(n), "ptmxmode=" + PrintOctal3(n);
    assert t[5..] == PrintOctal3(n) && t[0] == 'm';
    assert u[9..] == PrintOctal3(n) && u[0] == 'p';
  }

  lemma {:induction false} ApplyAppend(o: Opts, op: Operation, a: seq<string>, b: seq<string>)
    ensures var (o1, e1) := ApplyAll(o, op, a);
            ApplyAll(o, op, a + b) == if e1 == 0 then ApplyAll(o1, op, b) else (o1, e1)
    decreases |a|
  {
    hide ApplyOption;
    if a == [] {
      assert a + b == b;
    } else {
      assert (a + b)[1..] == a[1..] + b;
      if ApplyOption(o, op, a[0]).Some? {
        ApplyAppend(ApplyOption(o, op, a[0]).value, op, a[1..], b);
      }
    }
  }

  lemma ApplyOne(o: Opts, op: Operation, t: string)
    ensures ApplyAll(o, op, [t]) ==
            match ApplyOption(o, op, t) case None => (o, -EINVAL) case Some(o') => (o', 0)
    ensures ApplyAll(o, op, []) == (o, 0)
  {
    hide ApplyOption;
    assert [t][1..] == [];
  }

  /** Remounting with what was printed: parsing the shown options gives back the same record, exactly
      when no id was set beyond an int. (Such an id can be set: match_int keeps only 64 bits of the
      text and 32 of the value.) Otherwise the remount fails. */
  lemma ShowThenRemount(o: Opts)
    requires Produced(o)
    ensures Parse(o, PARSE_REMOUNT, Some(Show(o))) == (o, 0) <==> o.uid <= INT_MAX && o.gid <= INT_MAX
    ensures o.uid > INT_MAX || o.gid > INT_MAX ==> Parse(o, PARSE_REMOUNT, Some(Show(o))).1 == -EINVAL
  {
    hide Print, PrintOctal3, ApplyOption, ApplyAll, ParseFrom, Commas, Show;
    var op, d := PARSE_REMOUNT, Defaults(o.newinstance);
    var d1 := d.(uid := o.uid, setuid := o.setuid);
    var d2 := d1.(gid := o.gid, setgid := o.setgid);
    var d3 := d2.(mode := o.mode);
    var d4 := d3.(ptmxmode := o.ptmxmode);
    var u, g := "uid=" + Print(o.uid, 10), "gid=" + Print(o.gid, 10);
    var m, x, z := "mode=" + PrintOctal3(o.mode), "ptmxmode=" + PrintOctal3(o.ptmxmode), "max=" + Print(o.max, 10);
    PrintedUid(d, op, o.uid);
    PrintedGid(d1, op, o.gid);
    PrintedModes(d2, op, o.mode);
    PrintedModes(d3, op, o.ptmxmode);
    PrintedMax(d4, op, o.max);
    ApplyOne(d, op, u);
    ApplyOne(d1, op, g);
    ApplyOne(d2, op, m);
    ApplyOne(d3, op, x);
    ApplyOne(d4, op, z);
    var us, gs := if o.setuid then [u] else [], if o.setgid then [g] else [];
    var zs := if o.max < NR_UNIX98_PTY_MAX then [z] else [];
    ApplyAppend(d, op, us, gs);
    ApplyAppend(d, op, us + gs, [m]);
    ApplyAppend(d, op, us + gs + [m], [x]);
    ApplyAppend(d, op, us + gs + [m] + [x], zs);
    assert Printed(o) == us + gs + [m] + [x] + zs;
    ShowIsCommas(o);
    ParseIsFold(d, op, Printed(o));
  }

  lemma FourFs(s: string)
    requires AllDigits(s, 16)
    ensures AllDigits(s + "ffff", 16) && Value(s + "ffff", 16) == Value(s, 16) * 0x1_0000 + 0xFFFF
  {
    hide Value;
    assert IsDigit('f', 16) && Digit('f').value == 15;
    Append(s, 'f', 16);
    Append(s + ['f'], 'f', 16);
    Append(s + ['f'] + ['f'], 'f', 16);
    Append(s + ['f'] + ['f'] + ['f'], 'f', 16);
    assert s + "ffff" == s + ['f'] + ['f'] + ['f'] + ['f'];
  }

  lemma SixteenDigits()
    ensures AllDigits("fffffffffffffff8", 16) && Value("fffffffffffffff8", 16) == LONG_MODULUS - 8
  {
    hide Value, IsDigit, Digit;
    assert Value("", 16) == 0 by { EmptyValue(); }
    FourFs("");
    FourFs("" + "ffff");
    FourFs("" + "ffff" + "ffff");
    var s := "" + "ffff" + "ffff" + "ffff";
    ThreeFsAndEight(s);
    assert "fffffffffffffff8" == s + "fff8";
  }

  lemma EmptyValue()
    ensures Value("", 16) == 0
  {
  }

  lemma ThreeFsAndEight(s: string)
    requires AllDigits(s, 16)
    ensures AllDigits(s + "fff8", 16) && Value(s + "fff8", 16) == Value(s, 16) * 0x1_0000 + 0xFFF8
  {
    hide Value;
    assert IsDigit('f', 16) && Digit('f').value == 15 && IsDigit('8', 16) && Digit('8').value == 8;
    Append(s, 'f', 16);
    Append(s + ['f'], 'f', 16);
    Append(s + ['f'] + ['f'], 'f', 16);
    Append(s + ['f'] + ['f'] + ['f'], '8', 16);
    assert s + "fff8" == s + ['f'] + ['f'] + ['f'] + ['8'];
  }

  /** The witness: this mount succeeds and sets a uid that its own printed options cannot restore. */
  lemma BigUid(prev: Opts)
    ensures Parse(prev, PARSE_MOUNT, Some("uid=0xfffffffffffffff8")) ==
            (Defaults(false).(uid := 0xFFFF_FFF8, setuid := true), 0)
  {
    hide Value, AllDigits, ApplyOption, ParseFrom;
    var t, n := "uid=0xfffffffffffffff8", "0xfffffffffffffff8";
    assert t == "uid=" + n && n[2..] == "fffffffffffffff8" && t + "" == t;
    SixteenDigits();
    BigUidToken(t, n);
    OneOption(Defaults(false), PARSE_MOUNT, t, "");
    ParseNothing(Defaults(false).(uid := 0xFFFF_FFF8, setuid := true), PARSE_MOUNT);
  }

  lemma ParseNothing(o: Opts, op: Operation)
    ensures ParseFrom(o, op, Some("")) == (o, 0)
  {
    assert FirstComma("") == 0 && ""[..0] == "";
  }

  lemma BigUidToken(t: string, n: string)
    requires t == "uid=" + n && |n| == 18 && n[0] == '0' && n[1] == 'x' && IsDigit(n[2], 16)
    requires AllDigits(n[2..], 16) && Value(n[2..], 16) == LONG_MODULUS - 8
    ensures ApplyOption(Defaults(false), PARSE_MOUNT, t) == Some(Defaults(false).(uid := 0xFFFF_FFF8, setuid := true))
  {
    hide Value, AllDigits;
    assert t[4..] == n;
    assert ToLong(LONG_MODULUS - 8) == -8;
  }

  // ---- the last occurrence wins ----

  /** The last option of the list that sets the same field as `kind`. */
  function Last(ts: seq<string>, kind: Token): (i: int)
    ensures -1 <= i < |ts|
    decreases |ts|
  {
    if ts == [] then -1
    else if SameKind(MatchToken(ts[|ts| - 1]), kind) then |ts| - 1
    else Last(ts[..|ts| - 1], kind)
  }

  lemma LastOfNone()
    ensures forall k :: Last([], k) == -1
  {
  }

  lemma LastOfMore(ts: seq<string>)
    requires ts != []
    ensures forall k :: Last(ts, k) ==
              if SameKind(MatchToken(ts[|ts| - 1]), k) then |ts| - 1 else Last(ts[..|ts| - 1], k)
  {
    hide MatchToken;
  }

  predicate SameKind(a: Token, b: Token) {
    (a.OptUid? && b.OptUid?) || (a.OptGid? && b.OptGid?) || (a.OptMode? && b.OptMode?)
    || (a.OptPtmxmode? && b.OptPtmxmode?) || (a.OptNewinstance? && b.OptNewinstance?) || (a.OptMax? && b.OptMax?)
  }

  /** What one option says about the fields of its kind; applied alone to the default record. */
  function Said(op: Operation, t: string): Opts {
    match ApplyOption(Defaults(false), op, t)
    case None => Defaults(false)
    case Some(o) => o
  }

  /** Each field of a successfully parsed record is what the last option for it says, or the default. */
  ghost predicate FieldsAreLast(o: Opts, op: Operation, ts: seq<string>, r: Opts) {
    var u, g := Last(ts, OptUid("")), Last(ts, OptGid(""));
    var m, x, z := Last(ts, OptMode("")), Last(ts, OptPtmxmode("")), Last(ts, OptMax(""));
    && r.uid == (if u < 0 then o.uid else Said(op, ts[u]).uid) && r.setuid == (o.setuid || u >= 0)
    && r.gid == (if g < 0 then o.gid else Said(op, ts[g]).gid) && r.setgid == (o.setgid || g >= 0)
    && r.mode == (if m < 0 then o.mode else Said(op, ts[m]).mode)
    && r.ptmxmode == (if x < 0 then o.ptmxmode else Said(op, ts[x]).ptmxmode)
    && r.max == (if z < 0 then o.max else Said(op, ts[z]).max)
    && r.newinstance == (o.newinstance || (op.PARSE_MOUNT? && Last(ts, OptNewinstance) >= 0))
  }

  lemma OneField(o: Opts, op: Operation, t: string)
    requires ApplyOption(o, op, t).Some?
    ensures var r, k, s := ApplyOption(o, op, t).value, MatchToken(t), Said(op, t);
            && r.uid == (if k.OptUid? then s.uid else o.uid) && r.setuid == (o.setuid || k.OptUid?)
            && r.gid == (if k.OptGid? then s.gid else o.gid) && r.setgid == (o.setgid || k.OptGid?)
            && r.mode == (if k.OptMode? then s.mode else o.mode)
            && r.ptmxmode == (if k.OptPtmxmode? then s.ptmxmode else o.ptmxmode)
            && r.max == (if k.OptMax? then s.max else o.max)
            && r.newinstance == (o.newinstance || (op.PARSE_MOUNT? && k.OptNewinstance?))
  {
    hide MatchInt, MatchOctal, IsSigned, IsUnsigned, IsOctal;
  }

  lemma {:induction false} LastOptionWins(o: Opts, op: Operation, ts: seq<string>)
    requires ApplyAll(o, op, ts).1 == 0
    ensures FieldsAreLast(o, op, ts, ApplyAll(o, op, ts).0)
    decreases |ts|
  {
    hide ApplyOption, MatchToken, Said, Last;
    if ts == [] {
      assert forall k :: Last([], k) == -1 by { LastOfNone(); }
    } else {
      var init, t := ts[..|ts| - 1], ts[|ts| - 1];
      assert ts == init + [t];
      LastOfMore(ts);
      ApplyAppend(o, op, init, [t]);
      LastOptionWins(o, op, init);
      var o1 := ApplyAll(o, op, init).0;
      ApplyOne(o1, op, t);
      OneField(o1, op, t);
    }
  }

  /** The non-empty options of a text, in order. */
  function Options(data: Option<string>): seq<string>
    decreases Left(data)
  {
    match data
    case None => []
    case Some(s) =>
      var p := s[..FirstComma(s)];
      if p == "" then Options(Rest(s)) else [p] + Options(Rest(s))
  }

  lemma {:induction false} ParseIsApplyAll(o: Opts, op: Operation, data: Option<string>)
    ensures ParseFrom(o, op, data) == ApplyAll(o, op, Options(data))
    decreases Left(data)
  {
    hide ApplyOption;
    match data
    case None =>
    case Some(s) =>
      var p := s[..FirstComma(s)];
      if p == "" {
        ParseIsApplyAll(o, op, Rest(s));
      } else {
        var rest := Options(Rest(s));
        assert ([p] + rest)[0] == p && ([p] + rest)[1..] == rest;
        if ApplyOption(o, op, p).Some? {
          ParseIsApplyAll(ApplyOption(o, op, p).value, op, Rest(s));
        }
      }
  }

  /** For any text at all, every field of a successful mount or remount is what its last option says,
      or the default; and the record is one that Show can print. */
  lemma ParsedFields(prev: Opts, op: Operation, data: Option<string>)
    requires Parse(prev, op, data).1 == 0
    ensures var d := Defaults(op.PARSE_REMOUNT? && prev.newinstance);
            FieldsAreLast(d, op, Options(data), Parse(prev, op, data).0)
    ensures Produced(Parse(prev, op, data).0)
  {
    var d := Defaults(op.PARSE_REMOUNT? && prev.newinstance);
    ParseIsApplyAll(d, op, data);
    LastOptionWins(d, op, Options(data));
    ParseProduces(d, op, data);
  }

  /** A failing parse stops at its first bogus option; a failing remount leaves the record with the
      defaults and whatever the options before that one said. */
  lemma {:induction false} StopsAtFirstBogus(o: Opts, op: Operation, ts: seq<string>) returns (i: nat)
    requires ApplyAll(o, op, ts).1 != 0
    ensures i < |ts| && ApplyAll(o, op, ts[..i]) == (ApplyAll(o, op, ts).0, 0)
    ensures ApplyOption(ApplyAll(o, op, ts).0, op, ts[i]).None?
    decreases |ts|
  {
    hide ApplyOption;
    var t := ApplyOption(o, op, ts[0]);
    if t.None? {
      i := 0;
      assert ts[..0] == [];
    } else {
      var j := StopsAtFirstBogus(t.value, op, ts[1..]);
      i := j + 1;
      assert ts[..i][0] == ts[0] && ts[..i][1..] == ts[1..][..j];
    }
  }

  /** What a mount or remount set, a remount with the printed options restores. */
  lemma ParsePrintParse(prev: Opts, op: Operation, data: Option<string>)
    requires Parse(prev, op, data).1 == 0
    ensures var o := Parse(prev, op, data).0;
            && Produced(o)
            && (Parse(o, PARSE_REMOUNT, Some(Show(o))) == (o, 0) <==> o.uid <= INT_MAX && o.gid <= INT_MAX)
  {
    ParsedFields(prev, op, data);
    ShowThenRemount(Parse(prev, op, data).0);
  }
}
