/** build_cmd_str, the text command analogWrite sends, and the parse it
    round-trips with: "@<cmd>%<arg>%<arg>...$!". */
module CmdString {
  import opened Wrappers
  import opened Decimal

  const SEP: char := '%'

  /** '%'.join(parts) */
  function Join(parts: seq<string>): (s: string)
    ensures parts == [] ==> s == ""
    ensures |parts| > 0 ==> parts[0] <= s
    ensures |parts| > 1 ==> |s| > |parts[0]| && s[|parts[0]|] == SEP
  {
    if |parts| == 0 then ""
    else if |parts| == 1 then parts[0]
    else parts[0] + [SEP] + Join(parts[1..])
  }

  /** s.split('%'): always at least one field. */
  function Split(s: string): (fields: seq<string>)
    ensures |fields| >= 1
  {
    if s == [] then [""]
    else if s[0] == SEP then [""] + Split(s[1..])
    else
      var rest := Split(s[1..]);
      [[s[0]] + rest[0]] + rest[1..]
  }

  /** map(str, args) */
  function Decimals(args: seq<int>): (r: seq<string>)
    ensures |r| == |args|
    ensures forall i :: 0 <= i < |r| ==> r[i] == IntToDecimal(args[i])
  {
    if args == [] then [] else [IntToDecimal(args[0])] + Decimals(args[1..])
  }

  /** build_cmd_str(cmd, args): an empty argument tuple (or None) gives
      the same text as no arguments at all. */
  function BuildCmdStr(cmd: string, args: seq<int>): (s: string)
    ensures |s| == |cmd| + |Join(Decimals(args))| + 4
    ensures s[0] == '@' && s[|s| - 2..] == "$!"
  {
    "@" + cmd + [SEP] + Join(Decimals(args)) + "$!"
  }

  function ParseInts(fields: seq<string>): Option<seq<int>> {
    if fields == [] then Some([])
    else
      var head := ParseInt(fields[0]);
      var tail := ParseInts(fields[1..]);
      if head.Some? && tail.Some? then Some([head.value] + tail.value) else None
  }

  /** Reads a command string back into its command name and arguments. */
  function ParseCmdStr(s: string): Option<(string, seq<int>)> {
    if |s| < 3 || s[0] != '@' || s[|s| - 2..] != "$!" then None
    else
      var fields := Split(s[1..|s| - 2]);
      if |fields| < 2 then None
      else if fields[1..] == [""] then Some((fields[0], []))
      else match ParseInts(fields[1..])
        case Some(args) => Some((fields[0], args))
        case None => None
  }

  lemma {:induction false} SplitNoSep(s: string)
    requires SEP !in s
    ensures Split(s) == [s]
  {
    if s != [] {
      assert SEP !in s[1..];
      SplitNoSep(s[1..]);
      assert [s[0]] + s[1..] == s;
    }
  }

  lemma {:induction false} SplitAtSep(a: string, b: string)
    requires SEP !in a
    ensures Split(a + [SEP] + b) == [a] + Split(b)
  {
    if a == [] {
      assert a + [SEP] + b == [SEP] + b;
      assert ([SEP] + b)[1..] == b;
    } else {
      assert (a + [SEP] + b)[1..] == a[1..] + [SEP] + b;
      assert SEP !in a[1..];
      SplitAtSep(a[1..], b);
      assert [a[0]] + a[1..] == a;
    }
  }

  /** Splitting a join gives back its parts when no part holds the separator. */
  lemma {:induction false} SplitJoin(parts: seq<string>)
    requires |parts| >= 1
    requires forall i :: 0 <= i < |parts| ==> SEP !in parts[i]
    ensures Split(Join(parts)) == parts
  {
    if |parts| == 1 {
      SplitNoSep(parts[0]);
    } else {
      SplitAtSep(parts[0], Join(parts[1..]));
      SplitJoin(parts[1..]);
    }
  }

  lemma ParseIntsCons(f: string, fs: seq<string>, x: int, xs: seq<int>)
    requires ParseInt(f) == Some(x) && ParseInts(fs) == Some(xs)
    ensures ParseInts([f] + fs) == Some([x] + xs)
  {
    assert ([f] + fs)[0] == f && ([f] + fs)[1..] == fs;
  }

  lemma {:induction false} ParseDecimals(args: seq<int>)
    ensures ParseInts(Decimals(args)) == Some(args)
  {
    if args != [] {
      assert Decimals(args) == [IntToDecimal(args[0])] + Decimals(args[1..]);
      IntRoundTrip(args[0]);
      ParseDecimals(args[1..]);
      ParseIntsCons(IntToDecimal(args[0]), Decimals(args[1..]), args[0], args[1..]);
      assert [args[0]] + args[1..] == args;
    }
  }

  lemma DecimalHasNoSep(n: int)
    ensures SEP !in IntToDecimal(n)
  {
  }

  /** build_cmd_str(cmd, args) parses back to (cmd, args) whenever cmd has
      no '%', which is what its docstring demands of callers. */
  lemma BuildParseRoundTrip(cmd: string, args: seq<int>)
    requires SEP !in cmd
    ensures ParseCmdStr(BuildCmdStr(cmd, args)) == Some((cmd, args))
  {
    var s := BuildCmdStr(cmd, args);
    var ds := Decimals(args);
    assert s[1..|s| - 2] == cmd + [SEP] + Join(ds);
    SplitAtSep(cmd, Join(ds));
    var fields := Split(s[1..|s| - 2]);
    assert fields == [cmd] + Split(Join(ds));
    if args == [] {
      assert Join(ds) == "";
      assert fields[1..] == [""];
    } else {
      forall i | 0 <= i < |ds| ensures SEP !in ds[i] {
        DecimalHasNoSep(args[i]);
      }
      SplitJoin(ds);
      assert fields[1..] == ds;
      assert ds[0] != "";
      ParseDecimals(args);
    }
  }

  /** analogWrite's clamp of the duty cycle into 0..255. */
  function ClampDuty(val: int): (r: int)
    ensures 0 <= r <= 255
    ensures 0 <= val <= 255 ==> r == val
    ensures val > 255 ==> r == 255
    ensures val < 0 ==> r == 0
  {
    if val > 255 then 255 else if val < 0 then 0 else val
  }

  /** The text analogWrite(pin, val) writes. */
  function AnalogWriteCommand(pin: int, val: int): (s: string)
    ensures forall i :: 0 <= i < |s| ==> s[i] as int < 128
  {
    CmdStrIsAscii("aw", [pin, ClampDuty(val)]);
    BuildCmdStr("aw", [pin, ClampDuty(val)])
  }

  lemma AnalogWriteParses(pin: int, val: int)
    ensures ParseCmdStr(AnalogWriteCommand(pin, val)) == Some(("aw", [pin, ClampDuty(val)]))
  {
    BuildParseRoundTrip("aw", [pin, ClampDuty(val)]);
  }

  /** Every character of a command string built from an ASCII name is ASCII. */
  lemma {:induction false} CmdStrIsAscii(cmd: string, args: seq<int>)
    requires forall i :: 0 <= i < |cmd| ==> cmd[i] as int < 128
    ensures forall i :: 0 <= i < |BuildCmdStr(cmd, args)| ==> BuildCmdStr(cmd, args)[i] as int < 128
  {
    JoinDecimalsAscii(args);
  }

  lemma {:induction false} JoinDecimalsAscii(args: seq<int>)
    ensures forall i :: 0 <= i < |Join(Decimals(args))| ==> Join(Decimals(args))[i] as int < 128
  {
    if |args| > 1 {
      assert Decimals(args)[1..] == Decimals(args[1..]);
      JoinDecimalsAscii(args[1..]);
    }
  }
}
