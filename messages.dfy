/** The two scheduling-message patterns, hand-written from their regular
    expressions and searched anywhere in the message (`re.search`).

    Later version:  0/[0-9]+ nodes are available:.*?[0-9]+ Insufficient nvidia.com/gpu
    Early version:  0/[0-9]+ nodes are available: [0-9]+ Insufficient nvidia.com/gpu

    The unescaped `.` in `nvidia.com` is a regex wildcard in both, which
    `Text.CharMatches` reproduces. */
module Messages {
  import opened Text

  const NodesAvailable := " nodes are available:"
  const InsufficientGpu := " Insufficient nvidia.com/gpu"

  /** `0/[0-9]+ nodes are available:` matches from `a`, its digits ending at `d`. */
  predicate HeadAt(s: string, a: nat, d: nat) {
    PatternAt(s, a, "0/") && DigitsAt(s, a + 2, d) && PatternAt(s, d, NodesAvailable)
  }

  /** `[0-9]+ Insufficient nvidia.com/gpu` matches from `b`, its digits ending at `c`. */
  predicate TailAt(s: string, b: nat, c: nat) {
    DigitsAt(s, b, c) && PatternAt(s, c, InsufficientGpu)
  }

  /** The later pattern: anything but a newline may separate head and tail. */
  predicate ReportsInsufficientGpu(s: string) {
    exists a: nat, d: nat, b: nat, c: nat | a <= |s| && d <= |s| && b <= |s| && c <= |s| ::
      HeadAt(s, a, d) && DotsAt(s, d + |NodesAvailable|, b) && TailAt(s, b, c)
  }

  /** The early pattern's tail: one space after the head, then the tail. */
  predicate SpaceThenTailAt(s: string, d: nat, c: nat) {
    PatternAt(s, d + |NodesAvailable|, " ") && TailAt(s, d + |NodesAvailable| + 1, c)
  }

  /** The early pattern: the GPU shortage must be the first reason listed. */
  predicate ReportsInsufficientGpuFirst(s: string) {
    exists a: nat, d: nat, c: nat | a <= |s| && d <= |s| && c <= |s| ::
      HeadAt(s, a, d) && SpaceThenTailAt(s, d, c)
  }

  lemma LaterAt(s: string, a: nat, d: nat, b: nat, c: nat)
    requires a <= |s| && d <= |s| && b <= |s| && c <= |s|
    requires HeadAt(s, a, d) && DotsAt(s, d + |NodesAvailable|, b) && TailAt(s, b, c)
    ensures ReportsInsufficientGpu(s)
  {
  }

  lemma EarlyAt(s: string, a: nat, d: nat, c: nat)
    requires a <= |s| && d <= |s| && c <= |s|
    requires HeadAt(s, a, d) && SpaceThenTailAt(s, d, c)
    ensures ReportsInsufficientGpuFirst(s)
  {
  }

  /** Every message the early version accepts, the later one accepts too. */
  lemma EarlyPatternImpliesLater(s: string)
    ensures ReportsInsufficientGpuFirst(s) ==> ReportsInsufficientGpu(s)
  {
    if ReportsInsufficientGpuFirst(s) {
      var a: nat, d: nat, c: nat :| a <= |s| && d <= |s| && c <= |s| && HeadAt(s, a, d) && SpaceThenTailAt(s, d, c);
      var e := d + |NodesAvailable|;
      assert CharMatches(" "[0], s[e + 0]);
      assert s[e..e + 1] == [' '];
      assert DotsAt(s, e, e + 1);
      LaterAt(s, a, d, e + 1, c);
    }
  }

  predicate IsNumeral(n: string) {
    |n| > 0 && forall k | 0 <= k < |n| :: IsDigit(n[k])
  }

  lemma NumeralDigits(s: string, i: nat, n: string)
    requires i + |n| <= |s| && s[i..i + |n|] == n && IsNumeral(n)
    ensures DigitsAt(s, i, i + |n|)
  {
    forall k | i <= k < i + |n| ensures IsDigit(s[k]) {
      assert s[k] == s[i..i + |n|][k - i];
    }
  }

  lemma NewlineFreePieces()
    ensures '\n' !in NodesAvailable && '\n' !in InsufficientGpu
  {
  }

  /** A newline-free literal matches itself where it is embedded. */
  lemma LiteralAt(x: string, lit: string, s: string)
    requires x + lit <= s && '\n' !in lit
    ensures PatternAt(s, |x|, lit)
  {
    Embedded(x, lit, s);
    LiteralMatchesItself(s, |x|, lit);
  }

  lemma NumeralAt(x: string, n: string, s: string)
    requires x + n <= s && IsNumeral(n)
    ensures DigitsAt(s, |x|, |x| + |n|)
  {
    Embedded(x, n, s);
    NumeralDigits(s, |x|, n);
  }

  /** The pieces of `0/<n><head><reason><m><tail><rest>` each match their part
      of the pattern, whatever the newline-free literals `head` and `tail` are. */
  lemma {:induction false} PiecesMatch(n: string, head: string, reason: string, m: string, tail: string, rest: string)
    requires IsNumeral(n) && IsNumeral(m) && '\n' !in reason && '\n' !in head && '\n' !in tail
    ensures var s := "0/" + n + head + reason + m + tail + rest;
      var d := 2 + |n|;
      var b := d + |head| + |reason|;
      var c := b + |m|;
      && PatternAt(s, 0, "0/") && DigitsAt(s, 2, d) && PatternAt(s, d, head)
      && DotsAt(s, d + |head|, b) && PatternAt(s, d + |head|, reason)
      && DigitsAt(s, b, c) && PatternAt(s, c, tail)
  {
    var p1 := "0/" + n;
    var p2 := p1 + head;
    var p3 := p2 + reason;
    var p4 := p3 + m;
    var p5 := p4 + tail;
    var s := p5 + rest;
    assert p5 <= s;
    LiteralAt(p4, tail, s);
    NumeralAt(p3, m, s);
    LiteralAt(p2, reason, s);
    Embedded(p2, reason, s);
    LiteralAt(p1, head, s);
    NumeralAt("0/", n, s);
    LiteralAt([], "0/", s);
  }

  /** Any message of the shape `0/<n> nodes are available:<reason><m> Insufficient
      nvidia.com/gpu<rest>` with a newline-free `reason` matches the later pattern. */
  lemma ShapedMessageMatchesLater(n: string, reason: string, m: string, rest: string)
    requires IsNumeral(n) && IsNumeral(m) && '\n' !in reason
    ensures ReportsInsufficientGpu("0/" + n + NodesAvailable + reason + m + InsufficientGpu + rest)
  {
    NewlineFreePieces();
    PiecesMatch(n, NodesAvailable, reason, m, InsufficientGpu, rest);
    var s := "0/" + n + NodesAvailable + reason + m + InsufficientGpu + rest;
    var d := 2 + |n|;
    var b := d + |NodesAvailable| + |reason|;
    LaterAt(s, 0, d, b, b + |m|);
  }

  /** Any message of the shape `0/<n> nodes are available: <m> Insufficient
      nvidia.com/gpu<rest>` matches the early pattern. */
  lemma ShapedMessageMatchesEarly(n: string, m: string, rest: string)
    requires IsNumeral(n) && IsNumeral(m)
    ensures ReportsInsufficientGpuFirst("0/" + n + NodesAvailable + " " + m + InsufficientGpu + rest)
  {
    NewlineFreePieces();
    PiecesMatch(n, NodesAvailable, " ", m, InsufficientGpu, rest);
    var s := "0/" + n + NodesAvailable + " " + m + InsufficientGpu + rest;
    var d := 2 + |n|;
    EarlyAt(s, 0, d, d + |NodesAvailable| + 1 + |m|);
  }

  /** The text between the head and the tail of the recorded message whose
      taint reason comes first. */
  const TaintReason :=
    " 1 node(s)" + " had taint" + " {node-role" + ".kubernetes" + ".io/master:"
    + " }, that" + " the pod" + " didn't" + " tolerate, "

  /** The message recorded in the later source's notes (a taint reason listed
      before the GPU shortage), written as the pieces the pattern sees. */
  const TaintFirstMessage := "0/" + "3" + NodesAvailable + TaintReason + "2" + InsufficientGpu + "."

  /** The message recorded in both versions' notes (the GPU shortage first). */
  const ShortageFirstMessage :=
    "0/" + "2" + NodesAvailable + " " + "1" + InsufficientGpu
    + (", 1 node(s) had taint {node-role" + ".kubernetes.io/master: }, that the pod" + " didn't tolerate.")

  lemma AbsentFromConcat(ch: char, a: string, b: string)
    requires ch !in a && ch !in b
    ensures ch !in a + b
  {
  }

  /** The taint reason holds no newline (so `.*?` can cross it) and no `0`. */
  lemma TaintReasonLacks(ch: char)
    requires ch == '\n' || ch == '0'
    ensures ch !in TaintReason
  {
    var a := " 1 node(s)" + " had taint";
    assert ch !in " 1 node(s)" && ch !in " had taint";
    AbsentFromConcat(ch, " 1 node(s)", " had taint");
    assert ch !in " {node-role";
    AbsentFromConcat(ch, a, " {node-role");
    a := a + " {node-role";
    assert ch !in ".kubernetes";
    AbsentFromConcat(ch, a, ".kubernetes");
    a := a + ".kubernetes";
    assert ch !in ".io/master:";
    AbsentFromConcat(ch, a, ".io/master:");
    a := a + ".io/master:";
    assert ch !in " }, that";
    AbsentFromConcat(ch, a, " }, that");
    a := a + " }, that";
    assert ch !in " the pod";
    AbsentFromConcat(ch, a, " the pod");
    a := a + " the pod";
    assert ch !in " didn't";
    AbsentFromConcat(ch, a, " didn't");
    a := a + " didn't";
    assert ch !in " tolerate, ";
    AbsentFromConcat(ch, a, " tolerate, ");
  }

  lemma SmallNumerals()
    ensures IsNumeral("3") && IsNumeral("2") && IsNumeral("1")
  {
  }

  /** The recorded message with the taint reason first matches the later
      pattern. */
  lemma TaintFirstMessageMatches()
    ensures ReportsInsufficientGpu(TaintFirstMessage)
  {
    TaintReasonLacks('\n');
    SmallNumerals();
    ShapedMessageMatchesLater("3", TaintReason, "2", ".");
  }

  /** The recorded message with the GPU shortage first matches both patterns. */
  lemma ShortageFirstMessageMatches()
    ensures ReportsInsufficientGpu(ShortageFirstMessage)
    ensures ReportsInsufficientGpuFirst(ShortageFirstMessage)
  {
    SmallNumerals();
    var rest := ", 1 node(s) had taint {node-role" + ".kubernetes.io/master: }, that the pod" + " didn't tolerate.";
    assert '\n' !in " ";
    ShapedMessageMatchesLater("2", " ", "1", rest);
    ShapedMessageMatchesEarly("2", "1", rest);
  }

  lemma DropFirstOfConcat(x: string, y: string)
    requires |x| > 0
    ensures (x + y)[1..] == x[1..] + y
  {
  }

  /** The taint-first message has a `0` at the start and nowhere else. */
  lemma TaintFirstZeros(k: nat)
    requires 0 < k < |TaintFirstMessage|
    ensures TaintFirstMessage[0] == '0' && TaintFirstMessage[k] != '0'
  {
    var p1 := "0/" + "3";
    var p2 := p1 + NodesAvailable;
    var p3 := p2 + TaintReason;
    var p4 := p3 + "2";
    var p5 := p4 + InsufficientGpu;
    assert TaintFirstMessage == p5 + ".";
    DropFirstOfConcat(p5, ".");
    DropFirstOfConcat(p4, InsufficientGpu);
    DropFirstOfConcat(p3, "2");
    DropFirstOfConcat(p2, TaintReason);
    DropFirstOfConcat(p1, NodesAvailable);
    TaintReasonLacks('0');
    assert '0' !in p1[1..] && '0' !in NodesAvailable;
    AbsentFromConcat('0', p1[1..], NodesAvailable);
    AbsentFromConcat('0', p2[1..], TaintReason);
    AbsentFromConcat('0', p3[1..], "2");
    assert '0' !in InsufficientGpu;
    AbsentFromConcat('0', p4[1..], InsufficientGpu);
    AbsentFromConcat('0', p5[1..], ".");
    assert TaintFirstMessage[k] == TaintFirstMessage[1..][k - 1];
  }

  /** Only the first character of the taint-first message is a `0`, so the
      head of either pattern can match only at the start, with the digits `3`. */
  lemma TaintFirstHead(a: nat, d: nat)
    requires HeadAt(TaintFirstMessage, a, d)
    ensures a == 0 && d == 3
  {
    var s := TaintFirstMessage;
    forall k | 0 < k < |s|
      ensures s[k] != '0'
    {
      TaintFirstZeros(k);
    }
    assert CharMatches("0/"[0], s[a + 0]);
    assert s[3] == ' ';
  }

  /** What follows `0/3 nodes are available: ` in the taint-first message is
      `1 node(s)`, not a count followed by ` Insufficient`. */
  lemma TaintFirstNoEarlyTail(c: nat)
    ensures !SpaceThenTailAt(TaintFirstMessage, 3, c)
  {
    var s := TaintFirstMessage;
    assert s[24] == ' ' && s[25] == '1' && s[26] == ' ' && s[27] == 'n';
    assert InsufficientGpu[1] == 'I';
  }

  /** The recorded message with the taint reason first tells the two patterns
      apart: the later one accepts it, the early one, which wants the GPU
      shortage listed first, does not. */
  lemma TaintFirstMessageSeparates()
    ensures ReportsInsufficientGpu(TaintFirstMessage)
    ensures !ReportsInsufficientGpuFirst(TaintFirstMessage)
  {
    TaintFirstMessageMatches();
    var s := TaintFirstMessage;
    forall a: nat, d: nat, c: nat | a <= |s| && d <= |s| && c <= |s|
      ensures !(HeadAt(s, a, d) && SpaceThenTailAt(s, d, c))
    {
      if HeadAt(s, a, d) {
        TaintFirstHead(a, d);
        TaintFirstNoEarlyTail(c);
      }
    }
  }
}
