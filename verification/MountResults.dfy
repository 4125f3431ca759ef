/**
 What each mount option of fs/inode_orig.c does to the record, and which texts it refuses.
 */
module MountResults {
  import opened Common
  import opened Numbers
  import opened MountOptions

  /** An id: any number match_int can read but -1, as 32 bits. */
  lemma IdOptions(o: Opts, op: Operation, arg: string)
    ensures var v := if IsUnsigned(arg) then MatchInt(arg) else None;
            var id := if v.None? || v.value == -1 then None
                      else Some(if v.value < 0 then v.value + 0x1_0000_0000 else v.value);
            && ApplyOption(o, op, "uid=" + arg) ==
               (if id.None? then None else Some(o.(uid := id.value, setuid := true)))
            && ApplyOption(o, op, "gid=" + arg) ==
               (if id.None? then None else Some(o.(gid := id.value, setgid := true)))
  {
    hide IsUnsigned, MatchInt, IsOctal, MatchOctal;
    var u, g := "uid=" + arg, "gid=" + arg;
    assert u[4..] == arg && g[4..] == arg && u[0] == 'u' && g[0] == 'g';
    if IsUnsigned(arg) { IntRange(arg); }
  }

  lemma IntRange(s: string)
    requires IsSigned(s)
    ensures MatchInt(s).Some? ==> -0x8000_0000 <= MatchInt(s).value <= 0x7FFF_FFFF
  {
  }

  /** A mode: an octal number, of which the lowest twelve bits count. */
  lemma ModeOptions(o: Opts, op: Operation, arg: string)
    ensures var v := if IsOctal(arg) then MatchOctal(arg) else None;
            && ApplyOption(o, op, "mode=" + arg) == (if v.None? then None else Some(o.(mode := v.value % 4096)))
            && ApplyOption(o, op, "ptmxmode=" + arg) == (if v.None? then None else Some(o.(ptmxmode := v.value % 4096)))
  {
    hide IsUnsigned, MatchInt, IsOctal, MatchOctal;
    var m, x := "mode=" + arg, "ptmxmode=" + arg;
    assert m[5..] == arg && x[9..] == arg && m[0] == 'm' && m[1] == 'o' && x[0] == 'p';
  }

  /** A maximum: from 0 to 2^20. */
  lemma MaxOption(o: Opts, op: Operation, arg: string)
    ensures var v := if IsSigned(arg) then MatchInt(arg) else None;
            ApplyOption(o, op, "max=" + arg) ==
            (if v.None? || v.value < 0 || v.value > 0x10_0000 then None else Some(o.(max := v.value)))
  {
    hide IsUnsigned, IsSigned, MatchInt, IsOctal, MatchOctal;
    var z := "max=" + arg;
    assert z[4..] == arg && z[0] == 'm' && z[1] == 'a';
  }

  /** newinstance counts on a mount, and is accepted and ignored on a remount. */
  lemma NewinstanceOption(o: Opts)
    ensures ApplyOption(o, PARSE_MOUNT, "newinstance") == Some(o.(newinstance := true))
    ensures ApplyOption(o, PARSE_REMOUNT, "newinstance") == Some(o)
  {
    hide IsUnsigned, IsSigned, MatchInt, IsOctal, MatchOctal;
    assert "newinstance"[0] == 'n';
  }

  /** Nothing else is an option. */
  lemma OtherOptions(o: Opts, op: Operation, p: string)
    requires ApplyOption(o, op, p).Some?
    ensures p == "newinstance" || "uid=" <= p || "gid=" <= p || "max=" <= p || "mode=" <= p || "ptmxmode=" <= p
  {
    hide IsUnsigned, IsSigned, MatchInt, IsOctal, MatchOctal;
  }

  /** Without options everything has its default, but for newinstance on a remount. */
  lemma NoOptions(prev: Opts, op: Operation)
    ensures var o := Opts(false, false, 0, 0, 0x180, 0, op == PARSE_REMOUNT && prev.newinstance, 0x10_0000);
            Parse(prev, op, None) == (o, 0) && Parse(prev, op, Some("")) == (o, 0)
  {
    ParseNothing(Defaults(op.PARSE_REMOUNT? && prev.newinstance), op);
  }

  /** A mount of one option, from its text. */
  lemma OneOptionMount(prev: Opts, op: Operation, t: string)
    requires t != "" && ',' !in t
    ensures var d := Opts(false, false, 0, 0, 0x180, 0, op == PARSE_REMOUNT && prev.newinstance, 0x10_0000);
            Parse(prev, op, Some(t)) == match ApplyOption(d, op, t) case None => (d, -22) case Some(o) => (o, 0)
  {
    hide ApplyOption;
    var d := Defaults(op.PARSE_REMOUNT? && prev.newinstance);
    assert t + "" == t;
    OneOption(d, op, t, "");
    if ApplyOption(d, op, t).Some? { ParseNothing(ApplyOption(d, op, t).value, op); }
  }

  /** What is shown: an id only if it was set, a maximum only below the default, the modes always. */
  lemma ShownOptions(o: Opts)
    requires Produced(o)
    ensures var shown, n := Printed(o), |Printed(o)|;
            && n == 2 + (if o.setuid then 1 else 0) + (if o.setgid then 1 else 0) + (if o.max < 0x10_0000 then 1 else 0)
            && (o.setuid ==> shown[0] == "uid=" + Print(o.uid, 10))
            && (o.setgid ==> shown[if o.setuid then 1 else 0] == "gid=" + Print(o.gid, 10))
            && (o.max < 0x10_0000 ==> shown[n - 1] == "max=" + Print(o.max, 10))
            && "mode=" + PrintOctal3(o.mode) in shown && "ptmxmode=" + PrintOctal3(o.ptmxmode) in shown
  {
    hide Print, PrintOctal3;
    var m, x := "mode=" + PrintOctal3(o.mode), "ptmxmode=" + PrintOctal3(o.ptmxmode);
    var k := (if o.setuid then 1 else 0) + (if o.setgid then 1 else 0);
    assert Printed(o)[k] == m && Printed(o)[k + 1] == x;
  }
}
