/** Text the router builds and takes apart: splitting on a separator, printing an
    integer in decimal, and the names of dead letter keys and uploaded objects. */
module Text {

  /** Unix seconds and configured sizes are Go int64 values. */
  type int64 = x: int | -0x8000_0000_0000_0000 <= x < 0x8000_0000_0000_0000

  /** One element in front of the first of some parts. */
  function Prefixed<T>(x: T, parts: seq<seq<T>>): seq<seq<T>>
    requires parts != []
  {
    [[x] + parts[0]] + parts[1..]
  }

  /** What Go's strings.Split returns for a one-element separator. */
  function Split<T(==)>(s: seq<T>, sep: T): (parts: seq<seq<T>>)
    ensures |parts| >= 1
    ensures forall i | 0 <= i < |parts| :: sep !in parts[i]
  {
    if s == [] then [[]]
    else
      var rest := Split(s[1..], sep);
      if s[0] == sep then [[]] + rest else Prefixed(s[0], rest)
  }

  /** A text without the separator is its own only part. */
  lemma {:induction false} SplitWhole<T>(s: seq<T>, sep: T)
    requires sep !in s
    ensures Split(s, sep) == [s]
  {
    if s == [] {
    } else {
      SplitWhole(s[1..], sep);
      assert s == [s[0]] + s[1..];
    }
  }

  lemma SplitCons<T>(x: T, s: seq<T>, sep: T)
    ensures var rest := Split(s, sep);
            Split([x] + s, sep) == if x == sep then [[]] + rest else Prefixed(x, rest)
  {
    assert ([x] + s)[1..] == s;
  }

  lemma ConsAppend<U>(x: U, s: seq<U>, y: U, t: seq<U>)
    ensures [x] + s + [y] + t == [x] + (s + [y] + t)
  {
  }

  lemma PrefixedAppend<T>(x: T, p: seq<seq<T>>, q: seq<seq<T>>)
    requires p != []
    ensures Prefixed(x, p) + q == Prefixed(x, p + q)
    ensures [[]] + p + q == [[]] + (p + q)
  {
  }

  /** Splitting distributes over a separator, wherever it stands. */
  lemma {:induction false} SplitAppend<T>(a: seq<T>, sep: T, b: seq<T>)
    ensures Split(a + [sep] + b, sep) == Split(a, sep) + Split(b, sep)
  {
    if a == [] {
      assert a + [sep] + b == [sep] + b;
      SplitCons(sep, b, sep);
    } else {
      var x, rest := a[0], a[1..];
      SplitAppend(rest, sep, b);
      SplitCons(x, rest + [sep] + b, sep);
      SplitCons(x, rest, sep);
      ConsAppend(x, rest, sep, b);
      assert a == [x] + rest;
      PrefixedAppend(x, Split(rest, sep), Split(b, sep));
      hide Split;
    }
  }

  function Digit(d: nat): (c: char)
    requires d < 10
    ensures '0' <= c <= '9'
  {
    ('0' as int + d) as char
  }

  function DigitValue(c: char): nat {
    if '0' <= c <= '9' then c as nat - '0' as nat else 0
  }

  function PrintNat(n: nat): (s: string)
    ensures s != [] && forall c | c in s :: '0' <= c <= '9'
  {
    if n < 10 then [Digit(n)] else PrintNat(n / 10) + [Digit(n % 10)]
  }

  function ReadNat(s: string): nat {
    if s == [] then 0 else 10 * ReadNat(s[..|s| - 1]) + DigitValue(s[|s| - 1])
  }

  lemma {:induction false} ReadPrintNat(n: nat)
    ensures ReadNat(PrintNat(n)) == n
  {
    if n < 10 {
    } else {
      ReadPrintNat(n / 10);
      assert PrintNat(n)[..|PrintNat(n)| - 1] == PrintNat(n / 10);
    }
  }

  /** strconv.FormatInt(t, 10). */
  function Decimal(t: int): (s: string)
    ensures s != [] && '/' !in s && '0' <= s[|s| - 1] <= '9'
  {
    if t < 0 then "-" + PrintNat(-t) else PrintNat(t)
  }

  lemma DecimalSign(t: int)
    ensures t < 0 <==> Decimal(t)[0] == '-'
  {
    if t >= 0 { assert PrintNat(t)[0] in PrintNat(t); }
  }

  lemma DecimalInjective(t: int, u: int)
    requires Decimal(t) == Decimal(u)
    ensures t == u
  {
    DecimalSign(t);
    DecimalSign(u);
    if t < 0 {
      assert PrintNat(-t) == Decimal(t)[1..] == Decimal(u)[1..] == PrintNat(-u);
      ReadPrintNat(-t);
      ReadPrintNat(-u);
    } else {
      ReadPrintNat(t);
      ReadPrintNat(u);
    }
  }

  /** The key of a dead letter batch: the application and the topic it failed on. */
  function BatchKey(app: string, topic: string): string {
    app + "/" + topic
  }

  /** The name under which a batch is uploaded. */
  function ObjectName(key: string, now: int64): string {
    key + "/" + Decimal(now)
  }

  lemma LastSlash(a: string, x: string)
    requires '/' !in x
    ensures forall i | |a| < i < |a + "/" + x| :: (a + "/" + x)[i] != '/'
  {
    forall i | |a| < i < |a + "/" + x| ensures (a + "/" + x)[i] != '/' {
      assert (a + "/" + x)[i] == x[i - |a| - 1];
    }
  }

  /** What stands after the last slash, and what stands before it, are determined. */
  lemma SlashPosition(a: string, x: string, b: string, y: string)
    requires '/' !in x && '/' !in y
    requires a + "/" + x == b + "/" + y
    ensures a == b && x == y
  {
    var s := a + "/" + x;
    LastSlash(a, x);
    LastSlash(b, y);
    assert s[|a|] == '/' && s[|b|] == '/';
    assert |a| == |b|;
    assert a == s[..|a|] && b == s[..|b|];
    assert x == s[|a| + 1..] && y == s[|b| + 1..];
  }

  /** Two uploads share a name only when they are of the same key in the same second,
      whatever slashes the keys contain. */
  lemma ObjectNameInjective(key: string, now: int64, key': string, now': int64)
    ensures ObjectName(key, now) == ObjectName(key', now') <==> key == key' && now == now'
  {
    if ObjectName(key, now) == ObjectName(key', now') {
      SlashPosition(key, Decimal(now), key', Decimal(now'));
      DecimalInjective(now, now');
    }
  }

  /** The parts of an object's name are those of its key and the second. */
  lemma NameParts(key: string, now: int64)
    ensures Split(ObjectName(key, now), '/') == Split(key, '/') + [Decimal(now)]
  {
    SplitWhole(Decimal(now), '/');
    SplitAppend(key, '/', Decimal(now));
    assert ObjectName(key, now) == key + ['/'] + Decimal(now);
  }

  /** The number a text stands for, with a sign. */
  function ReadInt(s: string): int {
    if s != [] && s[0] == '-' then 0 - ReadNat(s[1..]) else ReadNat(s)
  }

  /** A text is how strconv prints a number: digits without a leading zero, after a sign if negative. */
  predicate Canonical(s: string) {
    var digits := if s != [] && s[0] == '-' then s[1..] else s;
    && digits != [] && (forall c | c in digits :: '0' <= c <= '9')
    && (digits[0] == '0' ==> s == "0")
  }

  lemma {:induction false} NoLeadingZero(n: nat)
    ensures PrintNat(n)[0] == '0' <==> n == 0
    ensures n == 0 ==> PrintNat(n) == "0"
  {
    if n < 10 {
    } else {
      NoLeadingZero(n / 10);
      assert PrintNat(n)[0] == PrintNat(n / 10)[0];
    }
  }

  /** The last part of an object's name is the second of its upload, as strconv prints it. */
  lemma NameReadsBack(key: string, now: int64)
    ensures var parts := Split(ObjectName(key, now), '/');
            |parts| == |Split(key, '/')| + 1 && parts[..|parts| - 1] == Split(key, '/')
            && ReadInt(parts[|parts| - 1]) == now && Canonical(parts[|parts| - 1])
  {
    NameParts(key, now);
    DecimalReadsBack(now);
    hide Decimal, ReadInt, Canonical, ObjectName;
  }

  lemma DecimalReadsBack(t: int)
    ensures ReadInt(Decimal(t)) == t && Canonical(Decimal(t))
  {
    var digits := PrintNat(if t < 0 then -t else t);
    NoLeadingZero(if t < 0 then -t else t);
    ReadPrintNat(if t < 0 then -t else t);
    assert t < 0 ==> Decimal(t) == "-" + digits && ("-" + digits)[1..] == digits;
    assert digits[0] in digits;
    assert forall c | c in digits :: '0' <= c <= '9';
    hide PrintNat, ReadNat;
  }

  /** The metric labels are the first two parts of the object name. They are the
      application and the topic exactly when neither contains a slash. */
  lemma LabelsRecoverKey(app: string, topic: string, now: int64)
    ensures |Split(ObjectName(BatchKey(app, topic), now), '/')| >= 3
    ensures var parts := Split(ObjectName(BatchKey(app, topic), now), '/');
            parts[0] == app && parts[1] == topic <==> '/' !in app && '/' !in topic
  {
    var name := ObjectName(BatchKey(app, topic), now);
    NameParts(BatchKey(app, topic), now);
    SplitAppend(app, '/', topic);
    assert BatchKey(app, topic) == app + ['/'] + topic;
    assert Split(name, '/') == Split(app, '/') + Split(topic, '/') + [Decimal(now)];
    if '/' !in app && '/' !in topic {
      SplitWhole(app, '/');
      SplitWhole(topic, '/');
    }
  }
}
