/**
 * How each command shell reads one input line: the command word is matched
 * case-insensitively, first exactly against help, exit and list-devices, then
 * as a prefix against the other commands in a fixed order; the arguments are
 * the line split at single spaces, without its first piece.
 */
module CommandLine {

  /** Lower-casing of one character, for the ASCII letters. */
  function LowerChar(c: char): char {
    if 'A' <= c <= 'Z' then (c as int - 'A' as int + 'a' as int) as char else c
  }

  /** `ToLowerInvariant`: same length, no capital left, every other character kept. */
  function ToLowerInvariant(s: string): (l: string)
    ensures |l| == |s|
    ensures forall i | 0 <= i < |l| :: !('A' <= l[i] <= 'Z')
    ensures forall i | 0 <= i < |s| && !('A' <= s[i] <= 'Z') :: l[i] == s[i]
    ensures forall i | 0 <= i < |s| && 'A' <= s[i] <= 'Z' :: l[i] as int == s[i] as int + 32
  {
    seq(|s|, i requires 0 <= i < |s| => LowerChar(s[i]))
  }

  /** Lower-casing twice changes nothing more. */
  lemma ToLowerIdempotent(s: string)
    ensures ToLowerInvariant(ToLowerInvariant(s)) == ToLowerInvariant(s)
  {
    var l := ToLowerInvariant(s);
    assert forall i | 0 <= i < |l| :: LowerChar(l[i]) == l[i];
  }

  /** Ordinal `StartsWith`: `prefix` agrees with `s` character by character. */
  predicate StartsWith(s: string, prefix: string): (b: bool)
    ensures b <==> |prefix| <= |s| && forall i | 0 <= i < |prefix| :: s[i] == prefix[i]
  {
    |prefix| <= |s| && s[..|prefix|] == prefix
  }

  datatype Verb =
    | Help
    | Exit
    | ListDevices
    | NewDevice
    | KillDevice
    | StartDevice
    | StopDevice
    | PauseDevice
    | ResumeDevice
    | DeviceStatus
    | SetFluxCapacitance
    | SetGravitationalIntegrity
    | Unknown

  /** The commands recognised by prefix, in the order the shell tries them. */
  const PrefixVerbs: seq<(string, Verb)> := [
    ("new-device", NewDevice),
    ("kill-device", KillDevice),
    ("start-device", StartDevice),
    ("stop-device", StopDevice),
    ("pause-device", PauseDevice),
    ("resume-device", ResumeDevice),
    ("device-status", DeviceStatus),
    ("set-flux-capacitance", SetFluxCapacitance),
    ("set-gravitational-integrity", SetGravitationalIntegrity)
  ]

  /** The first entry of PrefixVerbs, from `i` on, whose keyword starts `s`; |PrefixVerbs| if none. */
  function FirstPrefix(s: string, i: nat): (k: nat)
    requires i <= |PrefixVerbs|
    ensures i <= k <= |PrefixVerbs|
    ensures k < |PrefixVerbs| ==> StartsWith(s, PrefixVerbs[k].0)
    ensures forall j | i <= j < k :: !StartsWith(s, PrefixVerbs[j].0)
    decreases |PrefixVerbs| - i
  {
    if i == |PrefixVerbs| then i
    else if StartsWith(s, PrefixVerbs[i].0) then i
    else FirstPrefix(s, i + 1)
  }

  /** Classifies a command line as the shell's if/else-if chain does. */
  function Classify(cmd: string): (v: Verb)
    ensures v == Help <==> ToLowerInvariant(cmd) == "help"
    ensures v == Exit <==> ToLowerInvariant(cmd) == "exit"
    ensures v == ListDevices <==> ToLowerInvariant(cmd) == "list-devices"
    // a prefix command is chosen only when its keyword starts the line and no earlier keyword does
    ensures forall k | 0 <= k < |PrefixVerbs| && PrefixVerbs[k].1 == v ::
      StartsWith(ToLowerInvariant(cmd), PrefixVerbs[k].0) &&
      forall j | 0 <= j < k :: !StartsWith(ToLowerInvariant(cmd), PrefixVerbs[j].0)
    ensures v == Unknown <==>
      ToLowerInvariant(cmd) !in {"help", "exit", "list-devices"} &&
      forall k | 0 <= k < |PrefixVerbs| :: !StartsWith(ToLowerInvariant(cmd), PrefixVerbs[k].0)
  {
    var lower := ToLowerInvariant(cmd);
    if lower == "help" then Help
    else if lower == "exit" then Exit
    else if lower == "list-devices" then ListDevices
    else
      var k := FirstPrefix(lower, 0);
      if k < |PrefixVerbs| then PrefixVerbs[k].1 else Unknown
  }

  /** Case never matters to classification. */
  lemma ClassifyIgnoresCase(cmd: string)
    ensures Classify(ToLowerInvariant(cmd)) == Classify(cmd)
  {
    ToLowerIdempotent(cmd);
  }

  /** How many times `c` occurs in `s`. */
  function Occurrences(s: string, c: char): nat
    decreases |s|
  {
    if s == [] then 0 else (if s[0] == c then 1 else 0) + Occurrences(s[1..], c)
  }

  /** `s.Split(sep)`: the pieces between separators, empty pieces included. */
  function Split(s: string, sep: char): (parts: seq<string>)
    ensures |parts| == Occurrences(s, sep) + 1
    ensures forall i | 0 <= i < |parts| :: sep !in parts[i]
    decreases |s|
  {
    if s == [] then [""]
    else
      var rest := Split(s[1..], sep);
      if s[0] == sep then [""] + rest
      else [[s[0]] + rest[0]] + rest[1..]
  }

  /** `string.Join(sep, parts)`. */
  function Join(parts: seq<string>, sep: char): string
    requires |parts| >= 1
    decreases |parts|
  {
    if |parts| == 1 then parts[0] else parts[0] + [sep] + Join(parts[1..], sep)
  }

  /** Splitting loses nothing: joining the pieces back gives the line. */
  lemma {:induction false} JoinSplit(s: string, sep: char)
    ensures Join(Split(s, sep), sep) == s
    decreases |s|
  {
    if s != [] {
      var rest := Split(s[1..], sep);
      JoinSplit(s[1..], sep);
      if s[0] == sep {
        assert ([""] + rest)[1..] == rest;
      } else {
        var parts := [[s[0]] + rest[0]] + rest[1..];
        if |rest| == 1 {
          assert parts == [[s[0]] + rest[0]];
        } else {
          assert parts[1..] == rest[1..];
          assert Join(rest, sep) == rest[0] + [sep] + Join(rest[1..], sep);
        }
      }
    }
  }

  /** Splitting a join of separator-free pieces gives the pieces back. */
  lemma {:induction false} SplitJoin(parts: seq<string>, sep: char)
    requires |parts| >= 1
    requires forall i | 0 <= i < |parts| :: sep !in parts[i]
    ensures Split(Join(parts, sep), sep) == parts
    decreases |parts|, |parts[0]|
  {
    var p := parts[0];
    if p == [] {
      if |parts| > 1 {
        SplitJoin(parts[1..], sep);
        var s := Join(parts, sep);
        assert s == [sep] + Join(parts[1..], sep);
        assert s[1..] == Join(parts[1..], sep);
        assert parts == [""] + parts[1..];
      }
    } else {
      var tail := [p[1..]] + parts[1..];
      assert forall i | 0 <= i < |tail| :: sep !in tail[i] by {
        forall i | 0 <= i < |tail| ensures sep !in tail[i] {
          if i > 0 { assert tail[i] == parts[i]; }
        }
      }
      SplitJoin(tail, sep);
      var s := Join(parts, sep);
      assert p[0] != sep && p == [p[0]] + p[1..];
      if |parts| == 1 {
        assert s == p;
        assert s[1..] == Join(tail, sep);
      } else {
        assert tail[1..] == parts[1..];
        assert s[1..] == Join(tail, sep);
      }
      assert s[0] == p[0];
      assert parts == [[p[0]] + tail[0]] + tail[1..];
    }
  }

  /** The arguments of a command line: `cmd.Split(' ').Skip(1)`. */
  function Args(cmd: string): (parts: seq<string>)
    ensures |parts| == Occurrences(cmd, ' ')
    ensures forall i | 0 <= i < |parts| :: ' ' !in parts[i]
  {
    Split(cmd, ' ')[1..]
  }
}
