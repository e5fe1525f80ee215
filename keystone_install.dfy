/**
 * The decision logic of the Keystone (Google Software Update) installer for
 * Mac OS X: comparing four-part bundle versions, reading CFBundleVersion out
 * of an Info.plist, the directory layout under the install root, the
 * save/restore discipline around system-install permissions, the launchd
 * plist token substitution, and the choice of what to install.
 *
 * Running commands, reading and writing files and changing the process's
 * ids are effects outside the model: their results enter as parameters, and
 * the process's effective ids and umask are the fields of `Process`.
 */
module KeystoneInstaller {
  import opened Wrappers
  import opened Text

  /** The default launchd start interval of the agent, in seconds (an hour minus a jitter). */
  const AgentStartInterval: int := 3523

  /**
   * The start interval the installer uses: the default, or `int()` of the
   * `-I`/`--interval` value, None when `int()` rejects it.
   */
  function StartInterval(intervalOption: Option<string>): Option<int>
  {
    if intervalOption.Some? then ParseInt(intervalOption.value) else Some(AgentStartInterval)
  }

  /** Without the option the default holds; any interval given in decimal is the one the installer uses. */
  lemma StartIntervalFromOption(n: int)
    ensures StartInterval(None) == Some(AgentStartInterval)
    ensures StartInterval(Some(IntToString(n))) == Some(n)
  {
    ParseIntToString(n);
  }

  const UnknownErrorCode: int := -1
  const MasterDisableErrorCode: int := -2
  const UsageErrorCode: int := 64
  const UnsupportedOsErrorCode: int := 3
  const PackageVersionCheckErrorCode: int := 67

  /** The umask for system installs, octal 022. */
  const SystemUmask: int := 18

  /** Python's ValueError and IndexError, and the installer's own error with its exit code. */
  datatype Failure = ValueError | IndexError | InstallError(code: int, message: string)

  /** The exit code an installer error reports: its own code when it has a non-zero one, otherwise -1. */
  function ErrorCode(code: Option<int>): (c: int)
    ensures c != 0
    ensures code.Some? && code.value != 0 ==> c == code.value
    ensures code.None? || code == Some(0) ==> c == UnknownErrorCode
  {
    if code.Some? && code.value != 0 then code.value else UnknownErrorCode
  }

  // ---------------------------------------------------------------------
  // version comparison
  // ---------------------------------------------------------------------

  /**
   * Compares equal-length component lists left to right as integers: the
   * first difference decides, and a complete match is not greater. A
   * component that is not an integer is a ValueError (None) when reached.
   */
  function CompareComponents(xs: seq<string>, ys: seq<string>): Option<bool>
    requires |xs| == |ys|
  {
    if xs == [] then Some(false)
    else
      var x := ParseInt(xs[0]);
      if x.None? then None
      else
        var y := ParseInt(ys[0]);
        if y.None? then None
        else if x.value > y.value then Some(true)
        else if x.value < y.value then Some(false)
        else CompareComponents(xs[1..], ys[1..])
  }

  /**
   * Whether version `a` is greater than version `b`. A missing version, or
   * versions with different numbers of components, count as greater; None
   * stands for the ValueError of a non-numeric component.
   */
  function IsVersionGreaterThanVersion(a: Option<string>, b: Option<string>): (r: Option<bool>)
    ensures a.None? || b.None? ==> r == Some(true)
    ensures a.Some? && b.Some? && |Split(a.value, '.')| != |Split(b.value, '.')| ==> r == Some(true)
  {
    if a.None? || b.None? then Some(true)
    else
      var xs := Split(a.value, '.');
      var ys := Split(b.value, '.');
      if |xs| != |ys| then Some(true) else CompareComponents(xs, ys)
  }

  /** The integer value of every component, when all of them are integers. */
  function ComponentNumbers(parts: seq<string>): (r: Option<seq<int>>)
    ensures r.Some? ==> |r.value| == |parts|
    ensures r.Some? ==> forall i :: 0 <= i < |parts| ==> ParseInt(parts[i]) == Some(r.value[i])
    ensures r.None? ==> exists i :: 0 <= i < |parts| && ParseInt(parts[i]).None?
  {
    if parts == [] then Some([])
    else
      var x := ParseInt(parts[0]);
      var rest := ComponentNumbers(parts[1..]);
      if x.None? then None
      else if rest.None? then
        var i :| 0 <= i < |parts[1..]| && ParseInt(parts[1..][i]).None?;
        assert ParseInt(parts[i + 1]).None?;
        None
      else
        var r := [x.value] + rest.value;
        assert forall i :: 0 <= i < |parts| ==> ParseInt(parts[i]) == Some(r[i]) by {
          forall i | 0 <= i < |parts|
            ensures ParseInt(parts[i]) == Some(r[i])
          {
            if i > 0 {
              assert parts[i] == parts[1..][i - 1] && r[i] == rest.value[i - 1];
            }
          }
        }
        Some(r)
  }

  /** The reference order: after a common prefix, the first differing number is larger. */
  predicate NumericallyGreater(xs: seq<int>, ys: seq<int>)
    requires |xs| == |ys|
  {
    exists k :: 0 <= k < |xs| && xs[..k] == ys[..k] && xs[k] > ys[k]
  }

  /** Equal leading numbers do not decide: the comparison moves to the rest. */
  lemma NumericallyGreaterTail(xs: seq<int>, ys: seq<int>)
    requires |xs| == |ys| && xs != [] && xs[0] == ys[0]
    ensures NumericallyGreater(xs, ys) <==> NumericallyGreater(xs[1..], ys[1..])
  {
    if NumericallyGreater(xs, ys) {
      var k :| 0 <= k < |xs| && xs[..k] == ys[..k] && xs[k] > ys[k];
      GreaterAtTail(xs, ys, k);
    }
    if NumericallyGreater(xs[1..], ys[1..]) {
      var k :| 0 <= k < |xs| - 1 && xs[1..][..k] == ys[1..][..k] && xs[1..][k] > ys[1..][k];
      GreaterAtHead(xs, ys, k);
    }
  }

  lemma GreaterAtTail(xs: seq<int>, ys: seq<int>, k: int)
    requires |xs| == |ys| && xs != [] && xs[0] == ys[0]
    requires 0 <= k < |xs| && xs[..k] == ys[..k] && xs[k] > ys[k]
    ensures NumericallyGreater(xs[1..], ys[1..])
  {
    assert k > 0;
    assert xs[1..][..k - 1] == xs[..k][1..];
    assert ys[1..][..k - 1] == ys[..k][1..];
    assert xs[1..][k - 1] > ys[1..][k - 1];
  }

  lemma GreaterAtHead(xs: seq<int>, ys: seq<int>, k: int)
    requires |xs| == |ys| && xs != [] && xs[0] == ys[0]
    requires 0 <= k < |xs| - 1 && xs[1..][..k] == ys[1..][..k] && xs[1..][k] > ys[1..][k]
    ensures NumericallyGreater(xs, ys)
  {
    assert xs[..k + 1] == [xs[0]] + xs[1..][..k];
    assert ys[..k + 1] == [ys[0]] + ys[1..][..k];
    assert xs[k + 1] > ys[k + 1];
  }

  /** On numeric components the loop computes the reference order. */
  lemma {:induction false} CompareComponentsNumeric(xs: seq<string>, ys: seq<string>, ns: seq<int>, ms: seq<int>)
    requires |xs| == |ys|
    requires ComponentNumbers(xs) == Some(ns) && ComponentNumbers(ys) == Some(ms)
    ensures CompareComponents(xs, ys) == Some(NumericallyGreater(ns, ms))
  {
    if xs != [] {
      assert ParseInt(xs[0]) == Some(ns[0]) && ParseInt(ys[0]) == Some(ms[0]);
      assert ComponentNumbers(xs[1..]) == Some(ns[1..]) && ComponentNumbers(ys[1..]) == Some(ms[1..]);
      if ns[0] == ms[0] {
        CompareComponentsNumeric(xs[1..], ys[1..], ns[1..], ms[1..]);
        NumericallyGreaterTail(ns, ms);
      } else if ns[0] > ms[0] {
        assert ns[..0] == ms[..0];
      } else {
        SmallerHeadNotGreater(ns, ms);
      }
    }
  }

  /** A smaller first number decides against. */
  lemma SmallerHeadNotGreater(xs: seq<int>, ys: seq<int>)
    requires |xs| == |ys| && xs != [] && xs[0] < ys[0]
    ensures !NumericallyGreater(xs, ys)
  {
    forall k | 0 < k < |xs|
      ensures xs[..k] != ys[..k]
    {
      assert xs[..k][0] != ys[..k][0];
    }
  }

  /** For versions whose components are all integers, "greater" is the numeric lexicographic order. */
  lemma VersionGreaterIsNumeric(a: string, b: string, ns: seq<int>, ms: seq<int>)
    requires |Split(a, '.')| == |Split(b, '.')|
    requires ComponentNumbers(Split(a, '.')) == Some(ns) && ComponentNumbers(Split(b, '.')) == Some(ms)
    ensures |ns| == |ms|
    ensures IsVersionGreaterThanVersion(Some(a), Some(b)) == Some(NumericallyGreater(ns, ms))
  {
    CompareComponentsNumeric(Split(a, '.'), Split(b, '.'), ns, ms);
  }

  /** No numeric version is greater than itself. */
  lemma VersionGreaterIrreflexive(v: string)
    requires ComponentNumbers(Split(v, '.')).Some?
    ensures IsVersionGreaterThanVersion(Some(v), Some(v)) == Some(false)
  {
    var ns := ComponentNumbers(Split(v, '.')).value;
    VersionGreaterIsNumeric(v, v, ns, ns);
  }

  /** The reference order is asymmetric. */
  lemma NumericallyGreaterAsymmetric(xs: seq<int>, ys: seq<int>)
    requires |xs| == |ys| && NumericallyGreater(xs, ys)
    ensures !NumericallyGreater(ys, xs)
  {
    var j :| 0 <= j < |xs| && xs[..j] == ys[..j] && xs[j] > ys[j];
    forall k | 0 <= k < |xs| && ys[..k] == xs[..k]
      ensures ys[k] <= xs[k]
    {
      if k < j {
        assert xs[..j][k] == ys[..j][k];
      }
    }
  }

  /** Of two numeric versions with the same number of components, at most one is greater than the other. */
  lemma VersionGreaterAsymmetric(a: string, b: string)
    requires |Split(a, '.')| == |Split(b, '.')|
    requires ComponentNumbers(Split(a, '.')).Some? && ComponentNumbers(Split(b, '.')).Some?
    requires IsVersionGreaterThanVersion(Some(a), Some(b)) == Some(true)
    ensures IsVersionGreaterThanVersion(Some(b), Some(a)) == Some(false)
  {
    var ns := ComponentNumbers(Split(a, '.')).value;
    var ms := ComponentNumbers(Split(b, '.')).value;
    VersionGreaterIsNumeric(a, b, ns, ms);
    VersionGreaterIsNumeric(b, a, ms, ns);
    NumericallyGreaterAsymmetric(ns, ms);
  }

  /** Versions with different component counts are each "greater" than the other. */
  lemma VersionGreaterOnLengthMismatch(a: string, b: string)
    requires |Split(a, '.')| != |Split(b, '.')|
    ensures IsVersionGreaterThanVersion(Some(a), Some(b)) == Some(true)
    ensures IsVersionGreaterThanVersion(Some(b), Some(a)) == Some(true)
  {
  }

  // ---------------------------------------------------------------------
  // CFBundleVersion from Info.plist text
  // ---------------------------------------------------------------------

  const BundleVersionKey: string := "<key>CFBundleVersion</key>"

  /** The character sets of `strip('<string>')` and `strip('</string>')`. */
  const StringTagChars: set<char> := {'<', 's', 't', 'r', 'i', 'n', 'g', '>'}
  const EndTagChars: set<char> := {'<', '/', 's', 't', 'r', 'i', 'n', 'g', '>'}

  /** The value on a `<string>` line: whitespace and then the tag characters trimmed from both ends. */
  function CleanVersion(line: string): string
  {
    Strip(Strip(Strip(line, Whitespace), StringTagChars), EndTagChars)
  }

  /** Line `j` holds the key and the next line holds a non-empty value. */
  predicate Qualifies(lines: seq<string>, key: string, clean: string -> string, j: int)
  {
    0 <= j && j + 1 < |lines| && Contains(lines[j], key) && clean(lines[j + 1]) != ""
  }

  /**
   * The scan from line `i`: the value after the first line holding `key`
   * whose next line is not empty once cleaned. Reaching a key on the last
   * line is an IndexError. The installer cleans lines with `CleanVersion`;
   * the scan and its lemmas hold for any cleaner.
   */
  function VersionAfterKey(lines: seq<string>, key: string, clean: string -> string, i: nat): (r: Result<Option<string>, Failure>)
    requires i <= |lines|
    decreases |lines| - i
  {
    if i == |lines| then Ok(None)
    else if Contains(lines[i], key) then
      if i + 1 == |lines| then Err(IndexError)
      else
        var v := clean(lines[i + 1]);
        if v != "" then Ok(Some(v))
        else VersionAfterKey(lines, key, clean, i + 1)
    else VersionAfterKey(lines, key, clean, i + 1)
  }

  /** The CFBundleVersion of Info.plist text, None when no key line is followed by a value. */
  function CFBundleVersionFromInfo(info: string): (r: Result<Option<string>, Failure>)
  {
    VersionAfterKey(SplitLines(info), BundleVersionKey, CleanVersion, 0)
  }

  /** When the scan finds a value, it is the one after the first qualifying key line. */
  lemma {:induction false} ScanFindsFirst(lines: seq<string>, key: string, clean: string -> string, i: nat)
    requires i <= |lines|
    requires VersionAfterKey(lines, key, clean, i).Ok? && VersionAfterKey(lines, key, clean, i).value.Some?
    ensures exists j ::
      && i <= j && Qualifies(lines, key, clean, j)
      && VersionAfterKey(lines, key, clean, i).value.value == clean(lines[j + 1])
      && forall k :: i <= k < j ==> !Qualifies(lines, key, clean, k)
    decreases |lines| - i
  {
    if Contains(lines[i], key) && clean(lines[i + 1]) != "" {
      assert Qualifies(lines, key, clean, i);
    } else {
      ScanFindsFirst(lines, key, clean, i + 1);
      var j :| i + 1 <= j && Qualifies(lines, key, clean, j)
        && VersionAfterKey(lines, key, clean, i + 1).value.value == clean(lines[j + 1])
        && forall k :: i + 1 <= k < j ==> !Qualifies(lines, key, clean, k);
      assert !Qualifies(lines, key, clean, i);
    }
  }

  /** When the scan finds nothing, no key line qualifies and the last line holds no key. */
  lemma {:induction false} ScanFindsNothing(lines: seq<string>, key: string, clean: string -> string, i: nat)
    requires i <= |lines|
    requires VersionAfterKey(lines, key, clean, i) == Ok(None)
    ensures forall k :: i <= k ==> !Qualifies(lines, key, clean, k)
    ensures i < |lines| ==> !Contains(lines[|lines| - 1], key)
    decreases |lines| - i
  {
    if i < |lines| {
      ScanStep(lines, key, clean, i);
      ScanFindsNothing(lines, key, clean, i + 1);
      ScanKeylessLastLine(lines, key, clean, i);
    }
  }

  /** A scan that finds no value passes over line `i`, which does not qualify. */
  lemma ScanStep(lines: seq<string>, key: string, clean: string -> string, i: nat)
    requires i < |lines|
    requires VersionAfterKey(lines, key, clean, i).Err? || VersionAfterKey(lines, key, clean, i) == Ok(None)
    ensures !Qualifies(lines, key, clean, i)
    ensures i + 1 < |lines| ==> VersionAfterKey(lines, key, clean, i + 1) == VersionAfterKey(lines, key, clean, i)
    ensures i + 1 == |lines| ==> (VersionAfterKey(lines, key, clean, i).Err? <==> Contains(lines[i], key))
  {
  }

  lemma {:induction false} ScanKeylessLastLine(lines: seq<string>, key: string, clean: string -> string, i: nat)
    requires i < |lines|
    requires VersionAfterKey(lines, key, clean, i) == Ok(None)
    ensures !Contains(lines[|lines| - 1], key)
    decreases |lines| - i
  {
    if i + 1 < |lines| {
      ScanKeylessLastLine(lines, key, clean, i + 1);
    }
  }

  /** The scan fails only on a key in the last line, after no earlier key line qualified. */
  lemma {:induction false} ScanIndexError(lines: seq<string>, key: string, clean: string -> string, i: nat)
    requires i <= |lines|
    requires VersionAfterKey(lines, key, clean, i).Err?
    ensures VersionAfterKey(lines, key, clean, i).error == IndexError
    ensures i < |lines| && Contains(lines[|lines| - 1], key)
    ensures forall k :: i <= k ==> !Qualifies(lines, key, clean, k)
    decreases |lines| - i
  {
    ScanStep(lines, key, clean, i);
    if i + 1 < |lines| {
      ScanIndexError(lines, key, clean, i + 1);
    }
  }

  /** Cleaning never lengthens a line. */
  lemma CleanVersionNoLonger(line: string)
    ensures |CleanVersion(line)| <= |line|
  {
  }

  /** A plist holding the key on one line and the tagged value on the next yields that value. */
  lemma BundleVersionOfTwoLines(keyLine: string, valueLine: string)
    requires Contains(keyLine, BundleVersionKey)
    requires CleanVersion(valueLine) != ""
    requires forall i :: 0 <= i < |keyLine| ==> !IsLineBreak(keyLine[i])
    requires forall i :: 0 <= i < |valueLine| ==> !IsLineBreak(valueLine[i])
    ensures CFBundleVersionFromInfo(keyLine + "\n" + valueLine) == Ok(Some(CleanVersion(valueLine)))
  {
    CleanVersionNoLonger(valueLine);
    TwoLinesSplit(keyLine, valueLine);
    TwoLineScan([keyLine, valueLine], BundleVersionKey, CleanVersion);
  }

  lemma TwoLinesSplit(first: string, second: string)
    requires second != ""
    requires forall i :: 0 <= i < |first| ==> !IsLineBreak(first[i])
    requires forall i :: 0 <= i < |second| ==> !IsLineBreak(second[i])
    ensures SplitLines(first + "\n" + second) == [first, second]
  {
    var lines := [first, second];
    assert Join(lines, "\n") == first + "\n" + second;
    SplitLinesJoin(lines);
  }

  lemma TwoLineScan(lines: seq<string>, key: string, clean: string -> string)
    requires |lines| == 2 && Contains(lines[0], key) && clean(lines[1]) != ""
    ensures VersionAfterKey(lines, key, clean, 0) == Ok(Some(clean(lines[1])))
  {
  }

  // ---------------------------------------------------------------------
  // paths and permissions
  // ---------------------------------------------------------------------

  /** `os.path.join(a, b)`: an absolute `b` wins, otherwise a `/` is put between unless `a` already ends in one. */
  function PathJoin(a: string, b: string): (p: string)
    ensures !StartsWith(b, "/") && EndsWith(a, "/") ==> p == a + b
  {
    if StartsWith(b, "/") then b
    else if a == "" || EndsWith(a, "/") then a + b
    else a + "/" + b
  }

  /** The saved and current effective ids and umask, as one value. */
  datatype Permissions = Permissions(euid: int, egid: int, umask: int,
                                     oldEuid: Option<int>, oldEgid: Option<int>, oldUmask: Option<int>)

  predicate NothingSaved(p: Permissions)
  {
    p.oldEuid.None? && p.oldEgid.None? && p.oldUmask.None?
  }

  predicate AllSaved(p: Permissions)
  {
    p.oldEuid.Some? && p.oldEgid.Some? && p.oldUmask.Some?
  }

  /** Entering a system install: the current ids and umask are saved, then root ids and umask 022 are taken. */
  function SetPermissions(p: Permissions): (q: Permissions)
    requires NothingSaved(p)
    ensures AllSaved(q) && !NothingSaved(q)
    ensures q.euid == 0 && q.egid == 0 && q.umask == SystemUmask
  {
    Permissions(0, 0, SystemUmask, Some(p.euid), Some(p.egid), Some(p.umask))
  }

  /** Leaving it: the saved values are restored and forgotten. */
  function ClearPermissions(p: Permissions): (q: Permissions)
    requires AllSaved(p)
    ensures NothingSaved(q)
    ensures q.euid == p.oldEuid.value && q.egid == p.oldEgid.value && q.umask == p.oldUmask.value
  {
    Permissions(p.oldEuid.value, p.oldEgid.value, p.oldUmask.value, None, None, None)
  }

  /** Setting and then clearing gives back the state before. */
  lemma ClearUndoesSet(p: Permissions)
    requires NothingSaved(p)
    ensures ClearPermissions(SetPermissions(p)) == p
  {
  }

  /** The process's effective user and group ids and its umask. */
  class Process {
    var euid: int
    var egid: int
    var umask: int

    constructor (euid: int, egid: int, umask: int)
      ensures this.euid == euid && this.egid == egid && this.umask == umask
    {
      this.euid := euid;
      this.egid := egid;
      this.umask := umask;
    }
  }

  /** What running a command returned: its exit status and its output streams. */
  datatype CommandResult = CommandResult(status: int, out: string, err: string)

  /** The worker that installs or removes one Keystone, user or system. */
  // ---------------------------------------------------------------------
  // launchd plist tokens
  // ---------------------------------------------------------------------

  const RootToken := "${INSTALL_ROOT}"
  const TypeToken := "${INSTALL_TYPE}"
  const IntervalToken := "${START_INTERVAL}"

  /** A template token: a `$` followed by characters other than `$`. */
  predicate IsToken(tok: string)
  {
    tok != [] && tok[0] == '$' && '$' !in tok[1..]
  }

  /** Text without a `$` holds no token. */
  lemma ReplaceIdle(d: string, tok: string, rep: string)
    requires IsToken(tok) && '$' !in d
    ensures Replace(d, tok, rep) == d
  {
    ReplaceSkipFree(d, [], tok, rep);
    assert d + [] == d;
  }

  /** A root ending in `/`, followed by another `/`, holds a doubled slash at its end. */
  lemma SlashedRootEndsDoubled(root: string)
    requires EndsWith(root, "/")
    ensures OccursAt(root + "/", "//", |root| - 1)
  {
    assert (root + "/")[|root| - 1] == root[|root| - 1] == '/';
  }

  /** An occurrence of the slashed root that starts before it would put a doubled slash in `a + root`. */
  lemma EarlySlashedRoot(a: string, root: string, tail: string, k: int)
    requires EndsWith(root, "/") && 0 <= k < |a|
    requires OccursAt(a + ((root + "/") + tail), root + "/", k)
    ensures OccursAt(a + root, "//", k + |root| - 1)
  {
    var s := a + ((root + "/") + tail);
    var at := k + |root| - 1;
    SlashedRootEndsDoubled(root);
    PartOccurs(s, root + "/", "//", k, |root| - 1);
    assert s[at..at + 2] == (a + root)[at..at + 2];
  }

  /** With no doubled slash around it, only the doubled slash right after the root is removed. */
  lemma RemoveDoubledSlash(a: string, root: string, tail: string)
    requires EndsWith(root, "/")
    requires !Contains(a + root, "//") && !Contains(tail, "//")
    ensures Replace(a + (root + ("/" + tail)), root + "/", root) == a + (root + tail)
  {
    var slashed := root + "/";
    forall k | 0 <= k < |a| && OccursAt(a + (slashed + tail), slashed, k)
      ensures OccursAt(a + root, "//", k + |root| - 1)
    {
      EarlySlashedRoot(a, root, tail, k);
    }
    ContainsAt(a + root, "//");
    assert root + ("/" + tail) == slashed + tail;
    ReplaceSkip(a, slashed + tail, slashed, root);
    ReplaceLeading(tail, slashed, root);
    SlashedRootEndsDoubled(root);
    ReplaceWithoutPart(tail, slashed, root, "//", |root| - 1);
  }

  /** The root token is replaced; the later, different tokens are kept. */
  lemma FillRootToken(a: string, b: string, c: string, d: string, rootTok: string, typeTok: string, intervalTok: string,
                      root: string)
    requires IsToken(rootTok) && IsToken(typeTok) && IsToken(intervalTok)
    requires 10 < |rootTok| && 10 < |typeTok| && rootTok[10] != typeTok[10]
    requires 2 < |intervalTok| && rootTok[2] != intervalTok[2]
    requires '$' !in a && '$' !in b && '$' !in c && '$' !in d
    ensures Replace(a + (rootTok + ("/" + (b + (typeTok + (c + (intervalTok + d)))))), rootTok, root)
         == a + (root + ("/" + (b + (typeTok + (c + (intervalTok + d))))))
  {
    var tail2 := c + (intervalTok + d);
    ReplaceIdle(d, rootTok, root);
    assert (intervalTok + d)[2] == intervalTok[2];
    ReplaceSkipOther(intervalTok, d, rootTok, root);
    ReplaceSkipFree(c, intervalTok + d, rootTok, root);
    assert (typeTok + tail2)[10] == typeTok[10];
    ReplaceSkipOther(typeTok, tail2, rootTok, root);
    ReplaceSkipFree(b, typeTok + tail2, rootTok, root);
    ReplaceSkipFree("/", b + (typeTok + tail2), rootTok, root);
    ReplaceLeading("/" + (b + (typeTok + tail2)), rootTok, root);
    ReplaceSkipFree(a, rootTok + ("/" + (b + (typeTok + tail2))), rootTok, root);
  }

  /** The install-type token is replaced; the later start-interval token is kept. */
  lemma FillTypeToken(a: string, root: string, b: string, c: string, d: string, typeTok: string, intervalTok: string,
                      kind: string)
    requires IsToken(typeTok) && IsToken(intervalTok)
    requires 2 < |typeTok| && 2 < |intervalTok| && typeTok[2] != intervalTok[2]
    requires '$' !in a && '$' !in root && '$' !in b && '$' !in c && '$' !in d
    ensures Replace(a + (root + (b + (typeTok + (c + (intervalTok + d))))), typeTok, kind)
         == a + (root + (b + (kind + (c + (intervalTok + d)))))
  {
    var tail2 := c + (intervalTok + d);
    ReplaceIdle(d, typeTok, kind);
    assert (intervalTok + d)[2] == intervalTok[2];
    ReplaceSkipOther(intervalTok, d, typeTok, kind);
    ReplaceSkipFree(c, intervalTok + d, typeTok, kind);
    ReplaceLeading(tail2, typeTok, kind);
    ReplaceSkipFree(b, typeTok + tail2, typeTok, kind);
    ReplaceSkipFree(root, b + (typeTok + tail2), typeTok, kind);
    ReplaceSkipFree(a, root + (b + (typeTok + tail2)), typeTok, kind);
  }

  /** The start-interval token is replaced. */
  lemma FillIntervalToken(a: string, root: string, b: string, kind: string, c: string, d: string,
                          intervalTok: string, interval: string)
    requires IsToken(intervalTok)
    requires '$' !in a && '$' !in root && '$' !in b && '$' !in kind && '$' !in c && '$' !in d
    ensures Replace(a + (root + (b + (kind + (c + (intervalTok + d))))), intervalTok, interval)
         == a + (root + (b + (kind + (c + (interval + d)))))
  {
    ReplaceIdle(d, intervalTok, interval);
    ReplaceLeading(d, intervalTok, interval);
    ReplaceSkipFree(c, intervalTok + d, intervalTok, interval);
    ReplaceSkipFree(kind, c + (intervalTok + d), intervalTok, interval);
    ReplaceSkipFree(b, kind + (c + (intervalTok + d)), intervalTok, interval);
    ReplaceSkipFree(root, b + (kind + (c + (intervalTok + d))), intervalTok, interval);
    ReplaceSkipFree(a, root + (b + (kind + (c + (intervalTok + d)))), intervalTok, interval);
  }

  /** Filling three distinct tokens, the root followed by a slash first, in the order the installer does. */
  lemma FillTokens(a: string, b: string, c: string, d: string, rootTok: string, typeTok: string, intervalTok: string,
                   root: string, kind: string, interval: string)
    requires IsToken(rootTok) && IsToken(typeTok) && IsToken(intervalTok)
    requires 10 < |rootTok| && 10 < |typeTok| && rootTok[10] != typeTok[10]
    requires 2 < |intervalTok| && rootTok[2] != intervalTok[2] && typeTok[2] != intervalTok[2]
    requires '$' !in a && '$' !in b && '$' !in c && '$' !in d && '$' !in root && '$' !in kind
    requires EndsWith(root, "/") && !Contains(a + root, "//")
    requires !Contains(b + (typeTok + (c + (intervalTok + d))), "//")
    ensures var withRoot := Replace(a + (rootTok + ("/" + (b + (typeTok + (c + (intervalTok + d)))))), rootTok, root);
            var withType := Replace(Replace(withRoot, root + "/", root), typeTok, kind);
            Replace(withType, intervalTok, interval) == a + (root + (b + (kind + (c + (interval + d)))))
  {
    FillRootToken(a, b, c, d, rootTok, typeTok, intervalTok, root);
    RemoveDoubledSlash(a, root, b + (typeTok + (c + (intervalTok + d))));
    FillTypeToken(a, root, b, c, d, typeTok, intervalTok, kind);
    FillIntervalToken(a, root, b, kind, c, d, intervalTok, interval);
  }

  class KeystoneInstall {
    const package: Option<string>
    const isSystem: bool
    const agentJobUid: Option<int>
    const root: string
    const startInterval: int
    const launchdSetup: bool
    const launchdJobs: bool
    const selfDestruct: bool
    var cachedPackageVersion: Option<string>
    var oldEuid: Option<int>
    var oldEgid: Option<int>
    var oldUmask: Option<int>

    /** The root ends in `/`, and a system install knows which user its agent jobs run as. */
    predicate Valid()
    {
      EndsWith(root, "/") && (isSystem ==> agentJobUid.Some?)
    }

    /**
     * `startInterval` is the module-wide interval as option parsing left it
     * (see `StartInterval`); the installer reads it when it writes its plists.
     */
    constructor (package: Option<string>, isSystem: bool, agentJobUid: Option<int>, root: string,
                 startInterval: int, launchdSetup: bool, launchdJobs: bool, selfDestruct: bool)
      requires isSystem ==> agentJobUid.Some?
      ensures Valid()
      ensures this.root == if EndsWith(root, "/") then root else root + "/"
      ensures this.startInterval == startInterval
      ensures this.package == package && this.isSystem == isSystem && this.agentJobUid == agentJobUid
      ensures this.launchdSetup == launchdSetup && this.launchdJobs == launchdJobs
      ensures this.selfDestruct == selfDestruct
      ensures cachedPackageVersion.None? && oldEuid.None? && oldEgid.None? && oldUmask.None?
    {
      this.package := package;
      this.isSystem := isSystem;
      this.agentJobUid := agentJobUid;
      this.root := if EndsWith(root, "/") then root else root + "/";
      this.startInterval := startInterval;
      this.launchdSetup := launchdSetup;
      this.launchdJobs := launchdJobs;
      this.selfDestruct := selfDestruct;
      cachedPackageVersion := None;
      oldEuid := None;
      oldEgid := None;
      oldUmask := None;
      new;
      assert (root + "/")[|root + "/"| - 1..] == "/";
    }

    function LibraryCachesDirPath(): string
    {
      PathJoin(root, "Library/Caches/")
    }

    function LibraryGoogleDirPath(): string
    {
      PathJoin(root, "Library/Google/")
    }

    function KeystoneDirPath(): string
    {
      PathJoin(LibraryGoogleDirPath(), "GoogleSoftwareUpdate/")
    }

    function KeystoneBundlePath(): string
    {
      PathJoin(KeystoneDirPath(), "GoogleSoftwareUpdate.bundle/")
    }

    function KeystoneTicketStorePath(): string
    {
      PathJoin(KeystoneDirPath(), "TicketStore")
    }

    /** ksadmin inside the installed bundle, or None when that file does not exist. */
    function KsadminPath(present: bool): (p: Option<string>)
      ensures p.Some? <==> present
    {
      if present then Some(PathJoin(KeystoneBundlePath(), "Contents/MacOS/ksadmin")) else None
    }

    function KeystoneResourcePath(): string
    {
      PathJoin(KeystoneBundlePath(), "Contents/Resources/")
    }

    function KeystoneAgentPath(): string
    {
      PathJoin(KeystoneResourcePath(), "GoogleSoftwareUpdateAgent.app/")
    }

    function LaunchAgentConfigDir(): string
    {
      PathJoin(root, "Library/LaunchAgents/")
    }

    function LaunchDaemonConfigDir(): string
    {
      PathJoin(root, "Library/LaunchDaemons/")
    }

    /** Every directory path lies under the root and ends in `/`. */
    lemma DirectoryPathsUnderRoot()
      requires Valid()
      ensures UnderRoot(LibraryCachesDirPath()) && UnderRoot(LibraryGoogleDirPath())
      ensures UnderRoot(KeystoneDirPath()) && UnderRoot(KeystoneBundlePath())
      ensures UnderRoot(KeystoneResourcePath()) && UnderRoot(KeystoneAgentPath())
      ensures UnderRoot(LaunchAgentConfigDir()) && UnderRoot(LaunchDaemonConfigDir())
    {
      DirUnder(root, "Library/Caches/");
      DirUnder(root, "Library/Google/");
      DirUnder(root, "Library/LaunchAgents/");
      DirUnder(root, "Library/LaunchDaemons/");
      NestedDirUnderRoot(LibraryGoogleDirPath(), "GoogleSoftwareUpdate/");
      NestedDirUnderRoot(KeystoneDirPath(), "GoogleSoftwareUpdate.bundle/");
      NestedDirUnderRoot(KeystoneBundlePath(), "Contents/Resources/");
      NestedDirUnderRoot(KeystoneResourcePath(), "GoogleSoftwareUpdateAgent.app/");
    }

    predicate UnderRoot(path: string)
    {
      StartsWith(path, root) && EndsWith(path, "/")
    }

    lemma NestedDirUnderRoot(dir: string, part: string)
      requires UnderRoot(dir) && part != [] && part[0] != '/' && part[|part| - 1] == '/'
      ensures UnderRoot(PathJoin(dir, part))
    {
      DirUnder(dir, part);
      StartsWithTrans(PathJoin(dir, part), dir, root);
    }

    /** The ticket store is a file directly inside the Keystone directory, not a directory. */
    lemma TicketStoreIsFile()
      requires Valid()
      ensures KeystoneTicketStorePath() == KeystoneDirPath() + "TicketStore"
      ensures !EndsWith(KeystoneTicketStorePath(), "/")
    {
      DirectoryPathsUnderRoot();
      var name := "TicketStore";
      assert name[0] == 'T' && name[|name| - 1] == 'e';
      FileUnder(KeystoneDirPath(), name);
    }

    /** The content of a launchd plist once its tokens are filled in for this install. */
    function PlistContent(content: string): string
    {
      var withRoot := Replace(content, RootToken, root);
      var noDoubleSlash := Replace(withRoot, root + "/", root);
      var withType := Replace(noDoubleSlash, TypeToken, if isSystem then "system" else "user");
      Replace(withType, IntervalToken, IntToString(startInterval))
    }

    /** A plist without any token, and without a doubled slash after the root, is installed as it is. */
    lemma PlistWithoutTokens(content: string)
      requires !Contains(content, RootToken) && !Contains(content, root + "/")
      requires !Contains(content, TypeToken) && !Contains(content, IntervalToken)
      ensures PlistContent(content) == content
    {
      ReplaceAbsent(content, RootToken, root);
      ReplaceAbsent(content, root + "/", root);
      ReplaceAbsent(content, TypeToken, if isSystem then "system" else "user");
      ReplaceAbsent(content, IntervalToken, IntToString(startInterval));
    }

    /**
     * A plist holding each token once, with a slash after the root token:
     * the root replaces its token and the doubled slash it leaves becomes a
     * single one, the install type and the start interval replace their
     * tokens, and the surrounding text is kept. The surrounding text and the
     * root hold no `$` (the first character of every token), and neither
     * the text up to the root nor the text after it holds a doubled slash.
     */
    lemma PlistTokensFilled(a: string, b: string, c: string, d: string)
      requires Valid()
      requires '$' !in a && '$' !in b && '$' !in c && '$' !in d && '$' !in root
      requires !Contains(a + root, "//")
      requires !Contains(b + (TypeToken + (c + (IntervalToken + d))), "//")
      ensures PlistContent(a + (RootToken + ("/" + (b + (TypeToken + (c + (IntervalToken + d)))))))
           == a + (root + (b + ((if isSystem then "system" else "user") + (c + (IntToString(startInterval) + d)))))
    {
      assert RootToken[10] != TypeToken[10] && RootToken[2] != IntervalToken[2] && TypeToken[2] != IntervalToken[2];
      FillTokens(a, b, c, d, RootToken, TypeToken, IntervalToken, root,
        if isSystem then "system" else "user", IntToString(startInterval));
    }

    /** The saved ids in this installer together with the process's current ids. */
    function PermissionState(proc: Process): Permissions
      reads this, proc
    {
      Permissions(proc.euid, proc.egid, proc.umask, oldEuid, oldEgid, oldUmask)
    }

    /** Must not be entered twice: the saved fields are all empty before and all filled after. */
    method SetSystemInstallPermissions(proc: Process)
      requires oldEuid.None? && oldEgid.None? && oldUmask.None?
      modifies this, proc
      ensures PermissionState(proc) == SetPermissions(old(PermissionState(proc)))
      ensures cachedPackageVersion == old(cachedPackageVersion)
    {
      oldEuid := Some(proc.euid);
      proc.euid := 0;
      oldEgid := Some(proc.egid);
      proc.egid := 0;
      oldUmask := Some(proc.umask);
      proc.umask := SystemUmask;
    }

    /** Must follow a set: restores the saved ids and umask and empties the saved fields. */
    method ClearSystemInstallPermissions(proc: Process)
      requires oldEuid.Some? && oldEgid.Some? && oldUmask.Some?
      modifies this, proc
      ensures PermissionState(proc) == ClearPermissions(old(PermissionState(proc)))
      ensures cachedPackageVersion == old(cachedPackageVersion)
    {
      proc.euid := oldEuid.value;
      oldEuid := None;
      proc.egid := oldEgid.value;
      oldEgid := None;
      proc.umask := oldUmask.value;
      oldUmask := None;
    }

    /**
     * The version of the package about to be installed, read once from the
     * package's Info.plist (`tar` is what extracting it returned) and then
     * cached. A failed extraction is a package-version-check error.
     */
    method MyKeystoneBundleVersion(tar: CommandResult) returns (r: Result<Option<string>, Failure>)
      modifies this
      ensures old(cachedPackageVersion).Some? ==>
        r == Ok(old(cachedPackageVersion)) && cachedPackageVersion == old(cachedPackageVersion)
      ensures old(cachedPackageVersion).None? && tar.status != 0 ==>
        r.Err? && r.error.InstallError? && r.error.code == PackageVersionCheckErrorCode
        && cachedPackageVersion.None?
      ensures old(cachedPackageVersion).None? && tar.status == 0 ==>
        r == CFBundleVersionFromInfo(tar.out)
        && cachedPackageVersion == (if r.Ok? then r.value else None)
      ensures oldEuid == old(oldEuid) && oldEgid == old(oldEgid) && oldUmask == old(oldUmask)
    {
      if cachedPackageVersion.None? {
        if tar.status != 0 {
          return Err(InstallError(PackageVersionCheckErrorCode,
            "Google Software Update installer unable to read package Info.plist: \"" + tar.err + "\""));
        }
        var version := CFBundleVersionFromInfo(tar.out);
        if version.Err? {
          return version;
        }
        cachedPackageVersion := version.value;
      }
      return Ok(cachedPackageVersion);
    }
  }

  /** A path built by appending a relative part to a directory keeps the directory as a prefix and the part's last character. */
  lemma DirUnder(dir: string, part: string)
    requires EndsWith(dir, "/") && part != [] && part[0] != '/' && part[|part| - 1] == '/'
    ensures PathJoin(dir, part) == dir + part
    ensures StartsWith(PathJoin(dir, part), dir) && EndsWith(PathJoin(dir, part), "/")
  {
    assert !StartsWith(part, "/") by {
      assert part[..1] == [part[0]];
    }
    assert (dir + part)[..|dir|] == dir;
    assert (dir + part)[|dir + part| - 1..] == part[|part| - 1..];
  }

  lemma FileUnder(dir: string, name: string)
    requires EndsWith(dir, "/") && name != [] && name[0] != '/' && name[|name| - 1] != '/'
    ensures PathJoin(dir, name) == dir + name
    ensures !EndsWith(PathJoin(dir, name), "/")
  {
    assert !StartsWith(name, "/") by {
      assert name[..1] != "/";
    }
    assert (dir + name)[|dir + name| - 1] == name[|name| - 1];
  }

  lemma StartsWithTrans(a: string, b: string, c: string)
    requires StartsWith(a, b) && StartsWith(b, c)
    ensures StartsWith(a, c)
  {
    assert a[..|c|] == a[..|b|][..|c|];
  }

  // ---------------------------------------------------------------------
  // the install decision
  // ---------------------------------------------------------------------

  /**
   * The package is newer than what is installed when it is greater than the
   * installed bundle, or else greater than the installed ticket; the ticket
   * is only looked at when the bundle comparison says no.
   */
  function IsMyVersionGreaterThanInstalledVersion(mine: Option<string>, bundle: Option<string>,
                                                  ticket: Option<string>): (r: Option<bool>)
    ensures mine.None? || bundle.None? ==> r == Some(true)
    ensures r == Some(true) <==>
      IsVersionGreaterThanVersion(mine, bundle) == Some(true)
      || (IsVersionGreaterThanVersion(mine, bundle) == Some(false) && IsVersionGreaterThanVersion(mine, ticket) == Some(true))
  {
    var first := IsVersionGreaterThanVersion(mine, bundle);
    if first.None? then None
    else if first.value then Some(true)
    else IsVersionGreaterThanVersion(mine, ticket)
  }

  /** The versions the decision reads: the package's, the installed bundle's and ticket's, and a system bundle's. */
  datatype InstalledVersions = InstalledVersions(mine: Option<string>, bundle: Option<string>, ticket: Option<string>,
                                                 systemBundle: Option<string>)

  /**
   * A privileged install goes ahead exactly when the package is newer; a user
   * install never does when any system Keystone is present, and otherwise
   * also exactly when the package is newer.
   */
  function ShouldInstall(privileged: bool, v: InstalledVersions): (r: Option<bool>)
    ensures !privileged && v.systemBundle.Some? ==> r == Some(false)
    ensures privileged || v.systemBundle.None? ==>
      r == IsMyVersionGreaterThanInstalledVersion(v.mine, v.bundle, v.ticket)
  {
    if privileged then IsMyVersionGreaterThanInstalledVersion(v.mine, v.bundle, v.ticket)
    else if v.systemBundle.Some? then Some(false)
    else IsMyVersionGreaterThanInstalledVersion(v.mine, v.bundle, v.ticket)
  }

  /** A user install next to a system install of any version is skipped, whatever the versions. */
  lemma UserInstallDefersToSystem(v: InstalledVersions)
    requires v.systemBundle.Some?
    ensures ShouldInstall(false, v) == Some(false)
  {
  }

  /** With nothing installed, any package is installed. */
  lemma FreshMachineInstalls(privileged: bool, v: InstalledVersions)
    requires v.bundle.None? && v.systemBundle.None?
    ensures ShouldInstall(privileged, v) == Some(true)
  {
  }

  /** What the public install does, in order. */
  datatype Step = InstallKeystone | LockdownKeystone

  const MasterDisabledMessage: string :=
    "Google Software Update installer failed. An administrator has disabled Google Software Update."

  /**
   * The public install: refused with code -2 when an administrator disabled
   * updates; installs when forced or when the decision says so; locks down
   * whenever asked, even when nothing was installed.
   */
  function KeystoneInstallSteps(masterDisabled: bool, force: bool, lockdown: bool, privileged: bool,
                                v: InstalledVersions): (r: Result<seq<Step>, Failure>)
    ensures masterDisabled ==> r == Err(InstallError(MasterDisableErrorCode, MasterDisabledMessage))
    ensures !masterDisabled && (force || ShouldInstall(privileged, v).Some?) ==> r.Ok?
    ensures r.Ok? ==> (InstallKeystone in r.value <==> force || ShouldInstall(privileged, v) == Some(true))
    ensures r.Ok? ==> (LockdownKeystone in r.value <==> lockdown)
    ensures r.Ok? ==> |r.value| <= 2 && (|r.value| == 2 ==> r.value == [InstallKeystone, LockdownKeystone])
    ensures r.Err? && !masterDisabled ==> r == Err(ValueError) && !force
  {
    if masterDisabled then Err(InstallError(MasterDisableErrorCode, MasterDisabledMessage))
    else
      var install := if force then Some(true) else ShouldInstall(privileged, v);
      if install.None? then Err(ValueError)
      else
        Ok((if install.value then [InstallKeystone] else []) + (if lockdown then [LockdownKeystone] else []))
  }

  /** What the script does when run, ordered by how much it cleans up. */
  datatype MainAction = Nuke | Uninstall | RemoveReceipts | InstallAndFixup

  /**
   * The operating-system gate: `macVersion` is the release string the
   * platform reports, `None` when asking for it fails. A failure, or a
   * three-part release whose middle part is not a number or is below 4,
   * is refused; any other shape of release is let through.
   */
  predicate UnsupportedOs(macVersion: Option<string>)
  {
    || macVersion.None?
    || var parts := Split(macVersion.value, '.');
       |parts| == 3 && (ParseInt(parts[1]).None? || ParseInt(parts[1]).value < 4)
  }

  /** A three-part release is judged by its middle part alone. */
  lemma ThreePartRelease(parts: seq<string>)
    requires |parts| == 3 && forall i :: 0 <= i < |parts| ==> '.' !in parts[i]
    ensures UnsupportedOs(Some(Join(parts, "."))) <==> ParseInt(parts[1]).None? || ParseInt(parts[1]).value < 4
  {
    SplitJoin(parts, '.');
  }

  /** A `major.minor.patch` release is refused exactly when its minor number is below 4. */
  lemma ReleaseSupported(major: nat, minor: nat, patch: nat)
    ensures UnsupportedOs(Some(Join([IntToString(major), IntToString(minor), IntToString(patch)], "."))) <==> minor < 4
  {
    var parts := [IntToString(major), IntToString(minor), IntToString(patch)];
    NumeralHasNoDot(major);
    NumeralHasNoDot(minor);
    NumeralHasNoDot(patch);
    ThreePartRelease(parts);
    ParseIntToString(minor);
  }

  lemma NumeralHasNoDot(n: nat)
    ensures '.' !in IntToString(n)
  {
  }

  /**
   * The command line's choice: without a package and without a removal
   * option it is a usage error (exit 64); an unsupported operating system
   * stops it with code 3; a simulated failure code is an error with that
   * code; otherwise nuke beats uninstall, uninstall beats receipt removal,
   * and only with none of them is the package installed.
   */
  function ChooseAction(package: Option<string>, nuke: bool, uninstall: bool, removeReceipts: bool,
                        macVersion: Option<string>, failCode: int): (r: Result<MainAction, int>)
    ensures package.None? && !nuke && !uninstall && !removeReceipts ==> r == Err(UsageErrorCode)
    ensures (package.Some? || nuke || uninstall || removeReceipts) && UnsupportedOs(macVersion)
            ==> r == Err(UnsupportedOsErrorCode)
    ensures (package.Some? || nuke || uninstall || removeReceipts) && !UnsupportedOs(macVersion) && r.Err?
            ==> r.error == failCode
    ensures r.Ok? <==> (package.Some? || nuke || uninstall || removeReceipts) && !UnsupportedOs(macVersion) && failCode == 0
    ensures r.Ok? ==> (r.value == Nuke <==> nuke)
    ensures r.Ok? ==> (r.value == Uninstall <==> !nuke && uninstall)
    ensures r.Ok? ==> (r.value == RemoveReceipts <==> !nuke && !uninstall && removeReceipts)
    ensures r == Ok(InstallAndFixup) ==> package.Some?
  {
    if package.None? && !nuke && !uninstall && !removeReceipts then Err(UsageErrorCode)
    else if UnsupportedOs(macVersion) then Err(UnsupportedOsErrorCode)
    else if failCode != 0 then Err(ErrorCode(Some(failCode)))
    else if nuke then Ok(Nuke)
    else if uninstall then Ok(Uninstall)
    else if removeReceipts then Ok(RemoveReceipts)
    else Ok(InstallAndFixup)
  }
}
