/** Argument vectors for the compiler and the built program: option strings are counted, then
    cut in place at their blanks. */
module Arguments {
  import opened Wrappers
  import opened CStrings
  import opened Splitting

  /** An entry of an argument vector: left as malloc gave it, NULL, a string of its own, or a
      pointer into the copied option string. */
  datatype Arg = Unset | Null | Text(text: CString) | Pointer(at: nat)

  predicate Denotes(b: seq<char>, a: Arg, s: string) {
    match a
    case Text(t) => t == s
    case Pointer(p) => p <= |b| && TextAt(b, p) == s
    case _ => false
  }

  /** Every entry is set and denotes the string at its place. */
  predicate DenoteAll(b: seq<char>, args: seq<Arg>, ss: seq<string>) {
    |args| == |ss| && forall k :: 0 <= k < |args| ==> Denotes(b, args[k], ss[k])
  }

  /** The arguments an option string gives: none for NULL and the empty string. */
  function Pieces(options: Option<CString>): seq<string> {
    if options == None || options.value == "" then [] else Split(options.value, ' ')
  }

  /** NULL and the empty string give no argument. */
  lemma NoPieces()
    ensures Pieces(None) == [] && Pieces(Some("")) == []
  {
  }

  /** The arguments are the only strings without blanks that single blanks join to the option
      string. */
  lemma PiecesJoin(options: CString, ss: seq<string>)
    requires options != ""
    ensures Join(Pieces(Some(options)), ' ') == options
    ensures ss == Pieces(Some(options)) <==> ss != [] && Free(ss, ' ') && Join(ss, ' ') == options
  {
    SplitIsInverseOfJoin(options, ss, ' ');
    JoinSplit(options, ' ');
  }

  lemma SplitFirst(s: string, d: char)
    ensures var i := Find(s, [d]); Split(s, d) == if i == |s| then [s] else [s[..i]] + Split(s[i + 1..], d)
  {
    hide Split, Find;
    var i := Find(s, [d]);
    NotBeforeFind(s, d);
    SplitPiece(s[..i], s[i..], d);
    assert s[..i] + s[i..] == s;
    if i < |s| {
      assert s[i..i + 1] == [d] && s[i..][1..] == s[i + 1..];
    } else {
      assert s[..i] == s;
    }
  }

  /** The counting pass. */
  method CountArguments(options: Option<CString>) returns (count: nat)
    ensures count == |Pieces(options)|
  {
    hide Split, Find;
    count := 0;
    if options.Some? && options.value != "" {
      var text := options.value;
      var at := 0;
      count := 1;
      assert text[0..] == text;
      SplitFirst(text, ' ');
      while Find(text[at..], " ") != |text[at..]|
        invariant at <= |text|
        invariant count - 1 + |Split(text[at..], ' ')| == |Pieces(options)|
        decreases |text| - at
      {
        SplitFirst(text[at..], ' ');
        var blank := at + Find(text[at..], " ");
        assert text[at..][blank - at + 1..] == text[blank + 1..];
        count := count + 1;
        at := blank + 1;
      }
      SplitFirst(text[at..], ' ');
    }
  }

  /** What the splitting pass has stored: `done` entries in front of the pointer `at`. */
  ghost predicate Stored(b: seq<char>, args: seq<Arg>, ss: seq<string>, at: nat) {
    |args| == |ss| && forall k :: 0 <= k < |args| ==>
      args[k].Pointer? && args[k].at < at <= |b| && args[k].at + |TextAt(b, args[k].at)| < at
      && TextAt(b, args[k].at) == ss[k]
  }

  /** ... and the string at `at` is still to be cut into the other pieces. */
  ghost predicate Halfway(b: seq<char>, args: seq<Arg>, pieces: seq<string>, at: nat) {
    && |args| < |pieces| && at <= |b| && at + |TextAt(b, at)| < |b|
    && Stored(b, args, pieces[..|args|], at)
    && Split(TextAt(b, at), ' ') == pieces[|args|..]
  }

  lemma StoredCut(b: seq<char>, args: seq<Arg>, ss: seq<string>, at: nat, i: nat)
    requires Stored(b, args, ss, at) && at <= i < |b| && i < at + |TextAt(b, at)| < |b|
    ensures Stored(b[i := '\0'], args + [Pointer(at)], ss + [TextAt(b, at)[..i - at]], i + 1)
  {
    hide TextAt;
    CutText(b, at, i);
    forall k | 0 <= k < |args|
      ensures TextAt(b[i := '\0'], args[k].at) == ss[k]
    {
      CutBehind(b, args[k].at, i);
    }
  }

  lemma CutStep(b: seq<char>, args: seq<Arg>, pieces: seq<string>, at: nat)
    requires Halfway(b, args, pieces, at) && Find(TextAt(b, at), " ") < |TextAt(b, at)|
    ensures var i := at + Find(TextAt(b, at), " "); Halfway(b[i := '\0'], args + [Pointer(at)], pieces, i + 1)
  {
    hide TextAt, Stored, Find, Split;
    var n, text := |args|, TextAt(b, at);
    var i := at + Find(text, " ");
    SplitFirst(text, ' ');
    assert pieces[n] == pieces[n..][0] == text[..i - at] && pieces[n + 1..] == pieces[n..][1..];
    assert pieces[..n + 1] == pieces[..n] + [pieces[n]];
    StoredCut(b, args, pieces[..n], at, i);
    CutText(b, at, i);
    assert Split(TextAt(b[i := '\0'], i + 1), ' ') == pieces[n + 1..];
  }

  lemma CutLast(b: seq<char>, args: seq<Arg>, pieces: seq<string>, at: nat)
    requires Halfway(b, args, pieces, at) && Find(TextAt(b, at), " ") == |TextAt(b, at)|
    ensures DenoteAll(b, args + [Pointer(at)], pieces)
  {
    hide TextAt, Find, Split;
    SplitFirst(TextAt(b, at), ' ');
    assert |pieces[|args|..]| == 1 && pieces[|args|] == pieces[|args|..][0];
  }

  /** The splitting pass over entries `first` to `end`, as many as were counted. */
  method CutArguments(buffer: array<char>, args: array<Arg>, first: nat, end: nat, ghost options: CString)
    requires TextAt(buffer[..], 0) == options && |options| < buffer.Length
    requires end == first + |Split(options, ' ')| <= args.Length
    modifies buffer, args
    ensures args[..first] == old(args[..first]) && args[end..] == old(args[end..])
    ensures DenoteAll(buffer[..], args[first..end], Split(options, ' '))
  {
    hide Split, Find, TextAt, Halfway, DenoteAll;
    ghost var pieces := Split(options, ' ');
    var at: nat := 0;
    var i := first;
    assert Halfway(buffer[..], args[first..first], pieces, 0) by {
      StartHalfway(buffer[..], args[first..first], options);
    }
    while i < end
      invariant first <= i < end && at <= buffer.Length
      invariant Halfway(buffer[..], args[first..i], pieces, at)
      invariant args[..first] == old(args[..first]) && args[end..] == old(args[end..])
    {
      ghost var stored := args[first..i];
      args[i] := Pointer(at);
      assert args[first..i] == stored && args[first..i + 1] == stored + [Pointer(at)];
      var text := TextAt(buffer[..], at);
      var blank := Find(text, " ");
      if blank == |text| {
        CutLast(buffer[..], stored, pieces, at);
        assert i + 1 == end by { SameLength(buffer[..], stored + [Pointer(at)], pieces); }
        break;
      }
      CutStep(buffer[..], stored, pieces, at);
      HalfwayBounds(buffer[..], stored, pieces, at);
      WriteNul(buffer, at + blank);
      at := at + blank + 1;
      i := i + 1;
      HalfwayBounds(buffer[..], stored + [Pointer(at - blank - 1)], pieces, at);
    }
  }

  lemma StartHalfway(b: seq<char>, none: seq<Arg>, options: CString)
    requires TextAt(b, 0) == options && |options| < |b| && none == []
    ensures Halfway(b, none, Split(options, ' '), 0)
  {
    assert Split(options, ' ')[0..] == Split(options, ' ');
  }

  lemma HalfwayBounds(b: seq<char>, args: seq<Arg>, pieces: seq<string>, at: nat)
    requires Halfway(b, args, pieces, at)
    ensures |args| < |pieces| && at <= |b| && at + |TextAt(b, at)| < |b|
  {
  }

  lemma SameLength(b: seq<char>, args: seq<Arg>, ss: seq<string>)
    requires DenoteAll(b, args, ss)
    ensures |args| == |ss|
  {
  }

  /** No entry is left as malloc gave it, or NULL. */
  predicate AllSet(args: seq<Arg>) {
    Unset !in args && Null !in args
  }

  /** A vector: `head`, entries that nobody set, `tail`, and NULL at `end`. */
  predicate Laid(b: seq<char>, args: seq<Arg>, head: seq<string>, gap: nat, tail: seq<string>, end: nat) {
    && end == |head| + gap + |tail| < |args| && args[end] == Null
    && DenoteAll(b, args[..|head|], head)
    && (forall k :: |head| <= k < |head| + gap ==> args[k] == Unset)
    && DenoteAll(b, args[|head| + gap..end], tail)
  }

  /** How many entries a flag leaves unset: it is added to counts, and names one entry. */
  function Gap(isGdb: nat): nat {
    if isGdb == 0 then 0 else isGdb - 1
  }

  /** A vector laid out by a flag has no hole exactly when the flag is 0 or 1; then its entries
      denote all the arguments. */
  lemma NoHoleExactlyWhen(b: seq<char>, args: seq<Arg>, head: seq<string>, isGdb: nat, tail: seq<string>, end: nat)
    requires Laid(b, args, head, Gap(isGdb), tail, end)
    ensures AllSet(args[..end]) <==> isGdb <= 1
    ensures isGdb <= 1 ==> DenoteAll(b, args[..end], head + tail)
  {
    hide TextAt;
    var n := |head|;
    if isGdb > 1 {
      assert args[..end][n] == Unset;
    } else {
      assert args[..end] == args[..n] + args[n..end];
      DenoteAppend(b, args[..n], head, args[n..end], tail);
      assert AllSet(args[..end]);
    }
  }

  lemma DenoteAppend(b: seq<char>, args: seq<Arg>, ss: seq<string>, more: seq<Arg>, ts: seq<string>)
    requires DenoteAll(b, args, ss) && DenoteAll(b, more, ts)
    ensures DenoteAll(b, args + more, ss + ts)
  {
  }

  /** strdup of the option string; an empty buffer stands for NULL. */
  method CopyOptions(options: Option<CString>) returns (copy: array<char>)
    ensures fresh(copy)
    ensures options.Some? && options.value != "" ==>
            TextAt(copy[..], 0) == options.value && |options.value| < copy.Length
  {
    copy := new char[0];
    if options.Some? && options.value != "" {
      copy := Duplicate(options.value);
    }
  }

  function CompileHead(compiler: CString, source: CString, executable: CString, isGdb: nat): seq<string> {
    [compiler, source, "-o", executable] + if isGdb == 0 then [] else ["-g"]
  }

  /** The vector for the compiler, and the cut copy its pointers lead into. */
  method CompileArgs(compiler: CString, source: CString, executable: CString, options: Option<CString>, isGdb: nat)
    returns (args: array<Arg>, copy: array<char>, terminator: nat)
    ensures Laid(copy[..], args[..], CompileHead(compiler, source, executable, isGdb), Gap(isGdb),
            Pieces(options), terminator)
    ensures AllSet(args[..terminator]) <==> isGdb <= 1
    ensures isGdb <= 1 ==>
              DenoteAll(copy[..], args[..terminator],
                [compiler, source, "-o", executable] + (if isGdb == 0 then [] else ["-g"]) + Pieces(options))
  {
    hide Split, TextAt, Pieces, DenoteAll, CompileHead, Laid, AllSet, Gap;
    copy := CopyOptions(options);
    var count := CountArguments(options);
    count := count + isGdb;
    args := CompileEntries(count, compiler, source, executable, isGdb);
    terminator := 4 + count;
    ghost var before := args[..];
    FinishArgs(args, copy, 4 + isGdb, terminator, options);
    CompileLaid(copy[..], before, args[..], compiler, source, executable, isGdb, Pieces(options), terminator);
    assert args[..][..terminator] == args[..terminator];
    NoHoleExactlyWhen(copy[..], args[..], CompileHead(compiler, source, executable, isGdb), isGdb,
        Pieces(options), terminator);
    HeadsAre(compiler, source, executable, isGdb);
  }

  /** The allocated vector with its own entries. */
  method CompileEntries(count: nat, compiler: CString, source: CString, executable: CString, isGdb: nat)
    returns (args: array<Arg>)
    requires isGdb <= count
    ensures fresh(args) && args.Length == count + 5
    ensures args[0] == Text(compiler) && args[1] == Text(source) && args[2] == Text("-o") && args[3] == Text(executable)
    ensures isGdb != 0 ==> args[4] == Text("-g")
    ensures forall k :: 5 <= k < args.Length ==> args[k] == Unset
  {
    args := new Arg[count + 5](_ => Unset);
    args[0] := Text(compiler);
    args[1] := Text(source);
    args[2] := Text("-o");
    args[3] := Text(executable);
    if isGdb != 0 {
      args[4] := Text("-g");
    }
  }

  lemma CompileLaid(b: seq<char>, before: seq<Arg>, args: seq<Arg>, compiler: CString, source: CString,
                    executable: CString, isGdb: nat, tail: seq<string>, end: nat)
    requires |before| == |args| && 5 <= |args| && 4 + isGdb + |tail| == end < |args| && args[end] == Null
    requires before[0] == Text(compiler) && before[1] == Text(source)
    requires before[2] == Text("-o") && before[3] == Text(executable)
    requires isGdb != 0 ==> before[4] == Text("-g") && forall k :: 5 <= k < 4 + isGdb ==> before[k] == Unset
    requires args[..4 + isGdb] == before[..4 + isGdb] && DenoteAll(b, args[4 + isGdb..end], tail)
    ensures Laid(b, args, CompileHead(compiler, source, executable, isGdb), Gap(isGdb), tail, end)
  {
    hide DenoteAll, CompileHead;
    SamePrefix(before, args, 4 + isGdb);
    CompileHeadSet(b, args, compiler, source, executable, isGdb);
  }

  lemma CompileHeadSet(b: seq<char>, args: seq<Arg>, compiler: CString, source: CString, executable: CString,
                       isGdb: nat)
    requires |args| >= 5 && args[0] == Text(compiler) && args[1] == Text(source)
    requires args[2] == Text("-o") && args[3] == Text(executable)
    requires isGdb != 0 ==> args[4] == Text("-g")
    ensures var head := CompileHead(compiler, source, executable, isGdb);
            |head| == (if isGdb == 0 then 4 else 5) && DenoteAll(b, args[..|head|], head)
  {
  }

  lemma SamePrefix(before: seq<Arg>, now: seq<Arg>, n: nat)
    requires n <= |before| == |now| && now[..n] == before[..n]
    ensures forall k :: 0 <= k < n ==> now[k] == before[k]
  {
    forall k | 0 <= k < n ensures now[k] == before[k] { assert now[..n][k] == before[..n][k]; }
  }

  function CommandHead(isGdb: nat): seq<string> {
    if isGdb == 0 then [] else ["/usr/bin/gdb"]
  }

  lemma HeadsAre(compiler: CString, source: CString, executable: CString, isGdb: nat)
    ensures CompileHead(compiler, source, executable, isGdb)
         == [compiler, source, "-o", executable] + if isGdb == 0 then [] else ["-g"]
    ensures CommandHead(isGdb) == if isGdb == 0 then [] else ["/usr/bin/gdb"]
  {
  }

  /** The allocated vector with its own entries. */
  method CommandEntries(count: nat, executable: CString, isGdb: nat) returns (args: array<Arg>)
    requires isGdb <= count
    ensures fresh(args) && args.Length == count + 2 && args[isGdb] == Text(executable)
    ensures isGdb != 0 ==> args[0] == Text("/usr/bin/gdb")
    ensures forall k :: 0 < k < args.Length && k != isGdb ==> args[k] == Unset
  {
    args := new Arg[count + 2](_ => Unset);
    if isGdb != 0 {
      args[0] := Text("/usr/bin/gdb");
    }
    args[0 + isGdb] := Text(executable);
  }

  /** The vector for the built program, run under the debugger or by itself. */
  method CommandLineArgs(executable: CString, options: Option<CString>, isGdb: nat)
    returns (args: array<Arg>, copy: array<char>, terminator: nat)
    ensures Laid(copy[..], args[..], CommandHead(isGdb), Gap(isGdb), [executable] + Pieces(options), terminator)
    ensures AllSet(args[..terminator]) <==> isGdb <= 1
    ensures isGdb <= 1 ==>
              DenoteAll(copy[..], args[..terminator],
                (if isGdb == 0 then [] else ["/usr/bin/gdb"]) + ([executable] + Pieces(options)))
  {
    hide Split, TextAt, Pieces, DenoteAll, Laid, AllSet, Gap, CommandHead;
    copy := CopyOptions(options);
    var count := CountArguments(options);
    count := count + isGdb;
    args := CommandEntries(count, executable, isGdb);
    terminator := 1 + count;
    ghost var before := args[..];
    FinishArgs(args, copy, 1 + isGdb, terminator, options);
    CommandLaid(copy[..], before, args[..], executable, isGdb, Pieces(options), terminator);
    assert args[..][..terminator] == args[..terminator];
    NoHoleExactlyWhen(copy[..], args[..], CommandHead(isGdb), isGdb, [executable] + Pieces(options), terminator);
    HeadsAre("", "", executable, isGdb);
  }

  lemma CommandLaid(b: seq<char>, before: seq<Arg>, args: seq<Arg>, executable: CString, isGdb: nat,
                    tail: seq<string>, end: nat)
    requires |before| == |args| && 1 + isGdb + |tail| == end < |args| && args[end] == Null
    requires before[isGdb] == Text(executable) && (isGdb != 0 ==> before[0] == Text("/usr/bin/gdb"))
    requires forall k :: 0 < k < isGdb ==> before[k] == Unset
    requires args[..1 + isGdb] == before[..1 + isGdb] && DenoteAll(b, args[1 + isGdb..end], tail)
    ensures Laid(b, args, CommandHead(isGdb), Gap(isGdb), [executable] + tail, end)
  {
    hide TextAt;
    SamePrefix(before, args, 1 + isGdb);
    assert args[isGdb..end] == [Text(executable)] + args[1 + isGdb..end];
    DenoteAppend(b, [Text(executable)], [executable], args[1 + isGdb..end], tail);
    assert DenoteAll(b, args[..|CommandHead(isGdb)|], CommandHead(isGdb));
  }

  /** Cut the option string into the entries from `first` on, and terminate. */
  method FinishArgs(args: array<Arg>, copy: array<char>, first: nat, end: nat, ghost options: Option<CString>)
    requires end == first + |Pieces(options)| < args.Length
    requires options.Some? && options.value != "" ==>
            TextAt(copy[..], 0) == options.value && |options.value| < copy.Length
    modifies args, copy
    ensures args[end] == Null && args[..first] == old(args[..first])
    ensures DenoteAll(copy[..], args[first..end], Pieces(options))
  {
    hide Split, TextAt;
    if first < end {
      CutArguments(copy, args, first, end, options.value);
    }
    args[end] := Null;
  }
}
