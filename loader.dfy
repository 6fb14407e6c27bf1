/**
 * The `DataLoader` readers: users, API credentials, proxies, numbered
 * messages and the log of users already contacted. Each reads a file that is
 * given here as its lines (or, for messages, its whole text); `None` stands
 * for a file that does not exist or cannot be read, for which the reader
 * returns an empty collection.
 */
module Loader {
  import opened Wrappers
  import opened Text

  // ---------------------------------------------------------------- users

  /** The user a line of the users file names: stripped, one leading `@` dropped; none for a blank line. */
  function UserOf(line: string): (u: Option<string>)
    ensures u.None? <==> Strip(line) == ""
  {
    var t := Strip(line);
    if t == "" then None
    else if StartsWith(t, "@") then Some(t[1..])
    else Some(t)
  }

  /** What `f` keeps of each of `xs`, in order: the shape of every reader that skips some lines. */
  function Collect<T>(xs: seq<string>, f: string -> Option<T>): seq<T> {
    if xs == [] then []
    else
      var init := Collect(xs[..|xs| - 1], f);
      match f(xs[|xs| - 1])
      case None => init
      case Some(v) => init + [v]
  }

  /** One more element: the collection grows by what `f` keeps of it. */
  lemma CollectStep<T>(xs: seq<string>, i: nat, f: string -> Option<T>)
    requires i < |xs|
    ensures Collect(xs[..i + 1], f) == Collect(xs[..i], f) + (if f(xs[i]).Some? then [f(xs[i]).value] else [])
  {
    assert xs[..i + 1][..i] == xs[..i];
  }

  /** When `f` keeps every element, the collection is exactly what it keeps. */
  lemma {:induction false} CollectAll<T>(xs: seq<string>, f: string -> Option<T>, ys: seq<T>)
    requires |xs| == |ys| && forall i :: 0 <= i < |xs| ==> f(xs[i]) == Some(ys[i])
    ensures Collect(xs, f) == ys
  {
    if xs != [] {
      var k := |xs| - 1;
      assert forall i :: 0 <= i < k ==> f(xs[..k][i]) == Some(ys[..k][i]) by {
        forall i | 0 <= i < k ensures f(xs[..k][i]) == Some(ys[..k][i]) {
          assert xs[..k][i] == xs[i] && ys[..k][i] == ys[i];
        }
      }
      CollectAll(xs[..k], f, ys[..k]);
      assert f(xs[k]) == Some(ys[k]);
      assert ys == ys[..k] + [ys[k]];
    }
  }

  /** An element is collected exactly when `f` keeps something of some line. */
  lemma {:induction false} CollectMembers<T>(xs: seq<string>, f: string -> Option<T>, v: T)
    ensures v in Collect(xs, f) <==> exists i :: 0 <= i < |xs| && f(xs[i]) == Some(v)
  {
    if xs != [] {
      var k := |xs| - 1;
      var init := xs[..k];
      CollectMembers(init, f, v);
      if exists i :: 0 <= i < |xs| && f(xs[i]) == Some(v) {
        var i :| 0 <= i < |xs| && f(xs[i]) == Some(v);
        if i < k {
          assert init[i] == xs[i];
        }
      }
      if exists i :: 0 <= i < |init| && f(init[i]) == Some(v) {
        var i :| 0 <= i < |init| && f(init[i]) == Some(v);
        assert xs[i] == init[i];
      }
    }
  }

  /** The users named by `lines`, in file order. */
  function ParseUsers(lines: seq<string>): seq<string> {
    Collect(lines, UserOf)
  }

  lemma ParseUsersStep(lines: seq<string>, i: nat)
    requires i < |lines|
    ensures var t := Strip(lines[i]);
            ParseUsers(lines[..i + 1]) == ParseUsers(lines[..i]) + (if t == "" then [] else [if StartsWith(t, "@") then t[1..] else t])
  {
    CollectStep(lines, i, UserOf);
  }

  /** `load_users`. */
  method LoadUsers(file: Option<seq<string>>) returns (users: seq<string>)
    ensures users == if file.None? then [] else ParseUsers(file.value)
  {
    users := [];
    if file.None? {
      return;
    }
    var lines := file.value;
    var i := 0;
    while i < |lines|
      invariant 0 <= i <= |lines|
      invariant users == ParseUsers(lines[..i])
    {
      ParseUsersStep(lines, i);
      var user := Strip(lines[i]);
      if user != "" {
        var name := if StartsWith(user, "@") then user[1..] else user;
        users := users + [name];
      }
      i := i + 1;
    }
    assert lines[..|lines|] == lines;
  }

  /** A name as the users file holds it: not blank, no `@` of its own, no whitespace at its ends. */
  predicate IsPlainName(n: string) {
    n != "" && n[0] != '@' && !IsSpace(n[0]) && !IsSpace(n[|n| - 1])
  }

  /** `line` names `n` on a line of its own, with or without `@`. */
  predicate NamesLine(line: string, n: string) {
    line == n + "\n" || line == "@" + n + "\n"
  }

  lemma {:induction false} UserOfNamesLine(line: string, n: string)
    requires IsPlainName(n) && NamesLine(line, n)
    ensures UserOf(line) == Some(n)
  {
    var t := if line == n + "\n" then n else "@" + n;
    assert t[|t| - 1] == n[|n| - 1];
    assert line == [] + t + "\n";
    StripOf([], t, "\n");
    assert t == "@" + n ==> t[1..] == n;
  }

  /** The users file written one name per line, each with or without `@`, reads back as those names. */
  lemma {:induction false} ParseUsersOfNames(lines: seq<string>, names: seq<string>)
    requires |lines| == |names|
    requires forall i :: 0 <= i < |names| ==> IsPlainName(names[i]) && NamesLine(lines[i], names[i])
    ensures ParseUsers(lines) == names
  {
    forall i | 0 <= i < |lines| ensures UserOf(lines[i]) == Some(names[i]) {
      UserOfNamesLine(lines[i], names[i]);
    }
    CollectAll(lines, UserOf, names);
  }

  // ------------------------------------------------------- line-by-line files

  /** What one line of a credentials or proxy file yields. */
  datatype LineResult<T> =
    | Skip           // the line does not have the record's shape and is ignored
    | Entry(value: T)
    | Invalid        // `int()` raises on the line: the whole file reads as empty

  /** The records of a file read line by line; `None` once any line is invalid. */
  function ParseLines<T>(lines: seq<string>, parse: string -> LineResult<T>): Option<seq<T>> {
    if lines == [] then Some([])
    else
      match ParseLines(lines[..|lines| - 1], parse)
      case None => None
      case Some(init) =>
        match parse(lines[|lines| - 1])
        case Skip => Some(init)
        case Entry(e) => Some(init + [e])
        case Invalid => None
  }

  /** One more line, after lines that are all valid. */
  lemma ParseLinesStep<T>(lines: seq<string>, i: nat, parse: string -> LineResult<T>, acc: seq<T>)
    requires i < |lines| && ParseLines(lines[..i], parse) == Some(acc)
    ensures ParseLines(lines[..i + 1], parse) ==
            match parse(lines[i])
            case Skip => Some(acc)
            case Entry(e) => Some(acc + [e])
            case Invalid => None
  {
    assert lines[..i + 1][..i] == lines[..i];
  }

  /** An invalid line anywhere makes the whole file invalid. */
  lemma {:induction false} InvalidPrefix<T>(lines: seq<string>, i: nat, parse: string -> LineResult<T>)
    requires i <= |lines| && ParseLines(lines[..i], parse).None?
    ensures ParseLines(lines, parse).None?
    decreases |lines| - i
  {
    if i < |lines| {
      assert lines[..i + 1][..i] == lines[..i];
      InvalidPrefix(lines, i + 1, parse);
    } else {
      assert lines[..i] == lines;
    }
  }

  /** One line of the credentials file: `api_id:api_hash`. */
  function ApiLine(line: string): LineResult<(int, string)> {
    var t := Strip(line);
    if ':' !in t then Skip
    else
      var parts := SplitOnce(t, ':');
      match ParseInt(parts.0)
      case None => Invalid
      case Some(id) => Entry((id, parts.1))
  }

  /** `load_api_data`. */
  method LoadApiData(file: Option<seq<string>>) returns (api: seq<(int, string)>)
    ensures api == if file.None? then [] else ParseLines(file.value, ApiLine).GetOr([])
  {
    api := [];
    if file.None? {
      return;
    }
    var lines := file.value;
    var i := 0;
    while i < |lines|
      invariant 0 <= i <= |lines|
      invariant ParseLines(lines[..i], ApiLine) == Some(api)
    {
      ParseLinesStep(lines, i, ApiLine, api);
      var t := Strip(lines[i]);
      if ':' in t {
        var parts := SplitOnce(t, ':');
        var id := ParseInt(parts.0);
        if id.None? {
          assert ApiLine(lines[i]) == Invalid;
          InvalidPrefix(lines, i + 1, ApiLine);
          return [];
        }
        assert ApiLine(lines[i]) == Entry((id.value, parts.1));
        api := api + [(id.value, parts.1)];
      } else {
        assert ApiLine(lines[i]) == Skip;
      }
      i := i + 1;
    }
    assert lines[..|lines|] == lines;
  }

  /** The text before the first separator is fixed by the string. */
  lemma {:induction false} SplitOnceAt(a: string, b: string, sep: char)
    requires sep !in a
    ensures SplitOnce(a + [sep] + b, sep) == (a, b)
  {
    var s := a + [sep] + b;
    assert s[0..|a|] == a;
    FindFirst(s, sep, 0, |a|);
    assert s[..|a|] == a && s[|a| + 1..] == b;
  }

  /** A credentials line written as `id:hash` reads back as `(id, hash)`. */
  lemma {:induction false} ApiLineOfFormatted(id: int, hash: string)
    requires hash == [] || !IsSpace(hash[|hash| - 1])
    ensures ApiLine(IntToString(id) + ":" + hash) == Entry((id, hash))
  {
    var d := IntToString(id);
    var line := d + ":" + hash;
    assert d[0] == line[0];
    StripTrimmed(line);
    assert ':' !in d;
    assert line == d + [':'] + hash;
    SplitOnceAt(d, hash, ':');
    ParseIntOfIntToString(id);
  }

  datatype Proxy = Proxy(proxyType: string, addr: string, port: int, username: string, password: string)

  /** One line of the proxy file: `addr:port:username:password[:...]`. */
  function ProxyLine(line: string): LineResult<Proxy> {
    var t := Strip(line);
    if ':' !in t then Skip
    else
      var parts := Split(t, ':');
      if |parts| < 4 then Skip
      else
        match ParseInt(parts[1])
        case None => Invalid
        case Some(port) => Entry(Proxy("socks5", parts[0], port, parts[2], parts[3]))
  }

  /** `load_proxies`. */
  method LoadProxies(file: Option<seq<string>>) returns (proxies: seq<Proxy>)
    ensures proxies == if file.None? then [] else ParseLines(file.value, ProxyLine).GetOr([])
  {
    proxies := [];
    if file.None? {
      return;
    }
    var lines := file.value;
    var i := 0;
    while i < |lines|
      invariant 0 <= i <= |lines|
      invariant ParseLines(lines[..i], ProxyLine) == Some(proxies)
    {
      ParseLinesStep(lines, i, ProxyLine, proxies);
      var t := Strip(lines[i]);
      if ':' in t {
        var parts := Split(t, ':');
        if |parts| >= 4 {
          var port := ParseInt(parts[1]);
          if port.None? {
            assert ProxyLine(lines[i]) == Invalid;
            InvalidPrefix(lines, i + 1, ProxyLine);
            return [];
          }
          var proxy := Proxy("socks5", parts[0], port.value, parts[2], parts[3]);
          assert ProxyLine(lines[i]) == Entry(proxy);
          proxies := proxies + [proxy];
        } else {
          assert ProxyLine(lines[i]) == Skip;
        }
      } else {
        assert ProxyLine(lines[i]) == Skip;
      }
      i := i + 1;
    }
    assert lines[..|lines|] == lines;
  }

  /** The line of the proxy file that holds `p`. */
  function ProxyFields(p: Proxy): seq<string> {
    [p.addr, IntToString(p.port), p.username, p.password]
  }

  lemma {:induction false} JoinFour(a: string, b: string, c: string, d: string, sep: char)
    ensures Join([a, b, c, d], sep) == a + [sep] + b + [sep] + c + [sep] + d
  {
    assert [c, d][1..] == [d];
    assert Join([c, d], sep) == c + [sep] + d;
    assert [b, c, d][1..] == [c, d];
    assert Join([b, c, d], sep) == b + [sep] + (c + [sep] + d);
    assert [a, b, c, d][1..] == [b, c, d];
    assert Join([a, b, c, d], sep) == a + [sep] + (b + [sep] + (c + [sep] + d));
  }

  /** The proxy line is its own strip when the address and password have no whitespace at the outer ends. */
  lemma {:induction false} ProxyLineTrimmed(p: Proxy)
    requires p.addr == [] || !IsSpace(p.addr[0])
    requires p.password == [] || !IsSpace(p.password[|p.password| - 1])
    ensures Strip(Join(ProxyFields(p), ':')) == Join(ProxyFields(p), ':')
    ensures ':' in Join(ProxyFields(p), ':')
  {
    var port := IntToString(p.port);
    var line := Join(ProxyFields(p), ':');
    JoinFour(p.addr, port, p.username, p.password, ':');
    assert line[|p.addr|] == ':';
    assert !IsSpace(line[0]) by {
      if p.addr == [] { assert line[0] == ':'; } else { assert line[0] == p.addr[0]; }
    }
    assert !IsSpace(line[|line| - 1]) by {
      if p.password == [] { assert line[|line| - 1] == ':'; }
      else { assert line[|line| - 1] == p.password[|p.password| - 1]; }
    }
    StripTrimmed(line);
  }

  /** A proxy written as `addr:port:username:password` reads back as itself. */
  lemma {:induction false} ProxyLineOfFormatted(p: Proxy)
    requires p.proxyType == "socks5"
    requires ':' !in p.addr && ':' !in p.username && ':' !in p.password
    requires p.addr == [] || !IsSpace(p.addr[0])
    requires p.password == [] || !IsSpace(p.password[|p.password| - 1])
    ensures ProxyLine(Join(ProxyFields(p), ':')) == Entry(p)
  {
    var fields := ProxyFields(p);
    var line := Join(fields, ':');
    ProxyLineTrimmed(p);
    IntToStringNoColon(p.port);
    SplitJoin(fields, ':');
    assert Split(Strip(line), ':') == fields;
    ParseIntOfIntToString(p.port);
    assert ParseInt(fields[1]) == Some(p.port);
  }

  /** The decimal form of a number holds no `:`. */
  lemma {:induction false} IntToStringNoColon(n: int)
    ensures ':' !in IntToString(n)
  {
    var d := IntToString(n);
    if n < 0 {
      assert forall i :: 0 < i < |d| ==> d[i] == Digits(-n)[i - 1];
    }
  }

  // ------------------------------------------------------------- messages

  /** Length of the run of ASCII digits starting at `from`. */
  function DigitRun(s: string, from: nat): (n: nat)
    requires from <= |s|
    ensures from + n <= |s|
    ensures from + n < |s| ==> !IsDigit(s[from + n])
    decreases |s| - from
  {
    if from < |s| && IsDigit(s[from]) then 1 + DigitRun(s, from + 1) else 0
  }

  /** The run is made of digits. */
  lemma {:induction false} DigitRunDigits(s: string, from: nat)
    requires from <= |s|
    ensures forall i :: from <= i < from + DigitRun(s, from) ==> IsDigit(s[i])
    decreases |s| - from
  {
    if from < |s| && IsDigit(s[from]) {
      DigitRunDigits(s, from + 1);
    }
  }

  /** `s[at..]` starts with `\d+\.`, the number of a message. */
  predicate NumberAt(s: string, at: nat)
    requires at <= |s|
  {
    var n := DigitRun(s, at);
    n > 0 && at + n < |s| && s[at + n] == '.'
  }

  /** A line break where `re.split(r'\n(?=\d+\.)', ...)` cuts: a newline followed by a number. */
  predicate IsBreak(s: string, p: nat) {
    p < |s| && s[p] == '\n' && NumberAt(s, p + 1)
  }

  /** The first cut at or after `from`, if any. */
  function FirstBreak(s: string, from: nat): (r: Option<nat>)
    requires from <= |s|
    ensures r.Some? ==> from <= r.value < |s| && IsBreak(s, r.value)
    ensures r.Some? ==> forall p :: from <= p < r.value ==> !IsBreak(s, p)
    ensures r.None? ==> forall p :: from <= p < |s| ==> !IsBreak(s, p)
    decreases |s| - from
  {
    if from == |s| then None
    else if IsBreak(s, from) then Some(from)
    else FirstBreak(s, from + 1)
  }

  /** `re.split(r'\n(?=\d+\.)', s)`: the pieces between the cuts, the newlines cut away. */
  function SplitNumbered(s: string): (pieces: seq<string>)
    ensures |pieces| >= 1 && Join(pieces, '\n') == s
    decreases |s|
  {
    match FirstBreak(s, 0)
    case None => [s]
    case Some(p) =>
      var rest := SplitNumbered(s[p + 1..]);
      assert s == s[..p] + ['\n'] + s[p + 1..];
      assert ([s[..p]] + rest)[1..] == rest;
      [s[..p]] + rest
  }

  /** `re.sub(r'^\d+\.', '', m)`: the leading number of a message removed. */
  function DropNumber(m: string): string {
    if NumberAt(m, 0) then m[DigitRun(m, 0) + 1..] else m
  }

  /** The message a piece of the messages file holds; none when nothing is left. */
  function MessageOf(piece: string): Option<string> {
    var m := Strip(piece);
    if m == "" then None
    else
      var body := Strip(DropNumber(m));
      if body == "" then None else Some(body)
  }

  function ParseMessages(pieces: seq<string>): seq<string> {
    Collect(pieces, MessageOf)
  }

  lemma ParseMessagesStep(pieces: seq<string>, i: nat)
    requires i < |pieces|
    ensures ParseMessages(pieces[..i + 1]) == ParseMessages(pieces[..i]) + (if MessageOf(pieces[i]).None? then [] else [MessageOf(pieces[i]).value])
  {
    CollectStep(pieces, i, MessageOf);
  }

  /** `load_messages`: the file's text is stripped and cut at its message numbers. */
  method LoadMessages(file: Option<string>) returns (messages: seq<string>)
    ensures messages == if file.None? then [] else ParseMessages(SplitNumbered(Strip(file.value)))
  {
    messages := [];
    if file.None? {
      return;
    }
    var pieces := SplitNumbered(Strip(file.value));
    var i := 0;
    while i < |pieces|
      invariant 0 <= i <= |pieces|
      invariant messages == ParseMessages(pieces[..i])
    {
      ParseMessagesStep(pieces, i);
      var msg := Strip(pieces[i]);
      if msg != "" {
        var body := Strip(DropNumber(msg));
        if body != "" {
          messages := messages + [body];
        }
      }
      i := i + 1;
    }
    assert pieces[..|pieces|] == pieces;
  }

  /** A message as the file writes it: `<number>.<text>`. */
  function Numbered(k: nat, m: string): string {
    Digits(k) + "." + m
  }

  /** A cut right after a newline-free piece splits there. */
  lemma {:induction false} SplitNumberedAfter(a: string, rest: string)
    requires '\n' !in a && |rest| > 0 && NumberAt(rest, 0)
    ensures SplitNumbered(a + "\n" + rest) == [a] + SplitNumbered(rest)
  {
    var s := a + "\n" + rest;
    NumberAtShift(a + "\n", rest, 0);
    assert IsBreak(s, |a|);
    assert forall p :: 0 <= p < |a| ==> !IsBreak(s, p) by {
      forall p | 0 <= p < |a| ensures s[p] != '\n' { assert s[p] == a[p]; }
    }
    FirstBreakIs(s, 0, |a|);
    assert s[|a| + 1..] == rest;
    assert s[..|a|] == a;
  }

  lemma {:induction false} FirstBreakIs(s: string, from: nat, p: nat)
    requires from <= p < |s| && IsBreak(s, p)
    requires forall q :: from <= q < p ==> !IsBreak(s, q)
    ensures FirstBreak(s, from) == Some(p)
    decreases p - from
  {
    if from < p {
      FirstBreakIs(s, from + 1, p);
    }
  }

  /** Whether text starts with a number does not depend on what precedes it. */
  lemma {:induction false} NumberAtShift(pre: string, s: string, at: nat)
    requires at <= |s|
    ensures DigitRun(pre + s, |pre| + at) == DigitRun(s, at)
    ensures NumberAt(pre + s, |pre| + at) == NumberAt(s, at)
    decreases |s| - at
  {
    if at < |s| {
      assert (pre + s)[|pre| + at] == s[at];
      NumberAtShift(pre, s, at + 1);
    }
  }

  /** Without a cut from `from` on, there is no first cut. */
  lemma {:induction false} FirstBreakNone(s: string, from: nat)
    requires from <= |s|
    requires forall p :: from <= p < |s| ==> s[p] != '\n'
    ensures FirstBreak(s, from).None?
    decreases |s| - from
  {
    if from < |s| {
      FirstBreakNone(s, from + 1);
    }
  }

  /** A text without a newline is one piece. */
  lemma {:induction false} SplitNumberedSingle(s: string)
    requires '\n' !in s
    ensures SplitNumbered(s) == [s]
  {
    FirstBreakNone(s, 0);
  }

  /** A single-line message with its number in front. */
  predicate NumberedLine(piece: string) {
    '\n' !in piece && |piece| > 0 && NumberAt(piece, 0)
  }

  /** The number of a numbered message is the decimal form of `k`. */
  lemma {:induction false} NumberedNumber(k: nat, m: string)
    ensures DigitRun(Numbered(k, m), 0) == |Digits(k)|
    ensures NumberAt(Numbered(k, m), 0)
    ensures Numbered(k, m)[|Digits(k)| + 1..] == m
  {
    var d := Digits(k);
    var piece := Numbered(k, m);
    assert piece[|d|] == '.';
    assert forall i :: 0 <= i < |d| ==> piece[i] == d[i];
    DigitRunFrom(piece, 0, |d|);
    assert piece[|d| + 1..] == m;
  }

  lemma {:induction false} NumberedIsLine(k: nat, m: string)
    requires '\n' !in m
    ensures NumberedLine(Numbered(k, m))
  {
    var d := Digits(k);
    var piece := Numbered(k, m);
    NumberedNumber(k, m);
    assert piece == d + ['.'] + m;
    assert '\n' !in d;
  }

  /** A numbered piece gives back its message. */
  lemma {:induction false} MessageOfNumbered(k: nat, m: string)
    requires m != "" && !IsSpace(m[0]) && !IsSpace(m[|m| - 1])
    ensures MessageOf(Numbered(k, m)) == Some(m)
  {
    var d := Digits(k);
    var piece := Numbered(k, m);
    assert piece[0] == d[0] && piece[|piece| - 1] == m[|m| - 1];
    StripTrimmed(piece);
    NumberedNumber(k, m);
    assert DropNumber(piece) == m;
    StripTrimmed(m);
  }

  /** The digit run of `d + rest` is `d` when `rest` does not start with a digit. */
  lemma {:induction false} DigitRunOfDigits(d: string, rest: string)
    requires forall i :: 0 <= i < |d| ==> IsDigit(d[i])
    requires rest != [] && !IsDigit(rest[0])
    ensures DigitRun(d + rest, 0) == |d|
  {
    DigitRunFrom(d + rest, 0, |d|);
  }

  lemma {:induction false} DigitRunFrom(s: string, from: nat, end: nat)
    requires from <= end < |s| && !IsDigit(s[end])
    requires forall i :: from <= i < end ==> IsDigit(s[i])
    ensures DigitRun(s, from) == end - from
    decreases end - from
  {
    if from < end {
      DigitRunFrom(s, from + 1, end);
    }
  }

  /** A message as it can be written: one line, no whitespace at its ends. */
  predicate IsMessage(m: string) {
    m != "" && '\n' !in m && !IsSpace(m[0]) && !IsSpace(m[|m| - 1])
  }

  /** Single-line messages written one per line after their numbers read back as themselves. */
  lemma {:induction false} ParseMessagesOfFile(pieces: seq<string>, ms: seq<string>)
    requires |pieces| == |ms|
    requires forall i :: 0 <= i < |ms| ==> IsMessage(ms[i]) && pieces[i] == Numbered(i + 1, ms[i])
    ensures ParseMessages(SplitNumbered(Strip(Join(pieces, '\n')))) == ms
  {
    var text := Join(pieces, '\n');
    if ms == [] {
      StripTrimmed("");
      SplitNumberedSingle("");
      assert ParseMessages([""]) == ParseMessages([]);
    } else {
      NumberedPiecesRead(pieces, ms);
      MessagesTextTrimmed(pieces, ms);
      SplitNumberedOfPieces(pieces);
      CollectAll(pieces, MessageOf, ms);
    }
  }

  /** Each numbered line is a piece of its own that gives back its message. */
  lemma {:induction false} NumberedPiecesRead(pieces: seq<string>, ms: seq<string>)
    requires |pieces| == |ms|
    requires forall i :: 0 <= i < |ms| ==> IsMessage(ms[i]) && pieces[i] == Numbered(i + 1, ms[i])
    ensures forall i :: 0 <= i < |pieces| ==> NumberedLine(pieces[i]) && MessageOf(pieces[i]) == Some(ms[i])
  {
    forall i | 0 <= i < |pieces| ensures NumberedLine(pieces[i]) && MessageOf(pieces[i]) == Some(ms[i]) {
      NumberedIsLine(i + 1, ms[i]);
      MessageOfNumbered(i + 1, ms[i]);
    }
  }

  /** A messages file written from trimmed messages has no whitespace at its ends. */
  lemma {:induction false} MessagesTextTrimmed(pieces: seq<string>, ms: seq<string>)
    requires |pieces| == |ms| >= 1
    requires forall i :: 0 <= i < |ms| ==> IsMessage(ms[i]) && pieces[i] == Numbered(i + 1, ms[i])
    ensures Strip(Join(pieces, '\n')) == Join(pieces, '\n')
  {
    var text := Join(pieces, '\n');
    var last := |ms| - 1;
    JoinFirst(pieces, '\n');
    assert pieces[0] == Digits(1) + "." + ms[0];
    assert text[0] == pieces[0][0];
    JoinLastChar(pieces, '\n');
    assert IsMessage(ms[last]) && pieces[last] == Numbered(last + 1, ms[last]);
    assert pieces[last][|pieces[last]| - 1] == ms[last][|ms[last]| - 1];
    StripTrimmed(text);
  }

  /** The last character of a join is that of its last part when that part is not empty. */
  lemma {:induction false} JoinLastChar(xs: seq<string>, sep: char)
    requires |xs| >= 1 && xs[|xs| - 1] != ""
    ensures |Join(xs, sep)| > 0 && Join(xs, sep)[|Join(xs, sep)| - 1] == xs[|xs| - 1][|xs[|xs| - 1]| - 1]
  {
    if |xs| > 1 {
      JoinLastChar(xs[1..], sep);
    }
  }

  /** Numbered single-line pieces joined by newlines are cut apart exactly. */
  lemma {:induction false} SplitNumberedOfPieces(pieces: seq<string>)
    requires |pieces| >= 1
    requires forall i :: 0 <= i < |pieces| ==> NumberedLine(pieces[i])
    ensures SplitNumbered(Join(pieces, '\n')) == pieces
  {
    if |pieces| == 1 {
      SplitNumberedSingle(pieces[0]);
    } else {
      var tail := pieces[1..];
      assert [pieces[0]] + tail == pieces;
      assert forall i :: 0 <= i < |tail| ==> NumberedLine(tail[i]) by {
        forall i | 0 <= i < |tail| ensures NumberedLine(tail[i]) {
          assert tail[i] == pieces[i + 1];
        }
      }
      assert NumberedLine(pieces[0]) && NumberedLine(tail[0]);
      SplitNumberedCons(pieces[0], tail);
      SplitNumberedOfPieces(tail);
    }
  }

  /** Cutting a newline-free piece followed by a numbered text. */
  lemma {:induction false} SplitNumberedCons(first: string, tail: seq<string>)
    requires '\n' !in first && |tail| >= 1 && NumberedLine(tail[0])
    ensures SplitNumbered(Join([first] + tail, '\n')) == [first] + SplitNumbered(Join(tail, '\n'))
  {
    var rest := Join(tail, '\n');
    JoinFirst(tail, '\n');
    NumberAtPrefix(tail[0], rest);
    assert ([first] + tail)[1..] == tail;
    assert Join([first] + tail, '\n') == first + "\n" + rest;
    SplitNumberedAfter(first, rest);
  }

  /** A join starts with its first part. */
  lemma {:induction false} JoinFirst(xs: seq<string>, sep: char)
    requires |xs| >= 1
    ensures |xs[0]| <= |Join(xs, sep)| && Join(xs, sep)[..|xs[0]|] == xs[0]
  {
    if |xs| > 1 {
      assert Join(xs, sep) == xs[0] + ([sep] + Join(xs[1..], sep));
    }
  }

  /** A number at the front of a string is still there when more text follows. */
  lemma {:induction false} NumberAtPrefix(a: string, s: string)
    requires |a| > 0 && NumberAt(a, 0)
    requires |a| <= |s| && s[..|a|] == a
    ensures |s| > 0 && NumberAt(s, 0)
  {
    var n := DigitRun(a, 0);
    DigitRunDigits(a, 0);
    assert forall i :: 0 <= i < n ==> s[i] == a[i];
    assert s[n] == a[n];
    DigitRunFrom(s, 0, n);
  }

  // ---------------------------------------------------- users already sent

  /** The users listed in the sent-users log: every non-blank line, stripped. */
  function ParseSentUsers(lines: seq<string>): set<string> {
    if lines == [] then {}
    else
      var init := ParseSentUsers(lines[..|lines| - 1]);
      var u := Strip(lines[|lines| - 1]);
      if u == "" then init else init + {u}
  }

  /** `load_sent_users`: a missing log means nobody has been contacted. */
  method LoadSentUsers(file: Option<seq<string>>) returns (sent: set<string>)
    ensures sent == if file.None? then {} else ParseSentUsers(file.value)
  {
    sent := {};
    if file.None? {
      return;
    }
    var lines := file.value;
    var i := 0;
    while i < |lines|
      invariant 0 <= i <= |lines|
      invariant sent == ParseSentUsers(lines[..i])
    {
      assert lines[..i + 1][..i] == lines[..i];
      var user := Strip(lines[i]);
      if user != "" {
        sent := sent + {user};
      }
      i := i + 1;
    }
    assert lines[..|lines|] == lines;
  }

  /** Every non-blank line of the log names a contacted user. */
  lemma {:induction false} SentUsersComplete(lines: seq<string>, i: nat)
    requires i < |lines| && Strip(lines[i]) != ""
    ensures Strip(lines[i]) in ParseSentUsers(lines)
  {
    var init := lines[..|lines| - 1];
    if i < |init| {
      assert init[i] == lines[i];
      SentUsersComplete(init, i);
    }
  }

  /** Every contacted user is named by some line of the log. */
  lemma {:induction false} SentUsersSound(lines: seq<string>, u: string) returns (i: nat)
    requires u in ParseSentUsers(lines)
    ensures i < |lines| && Strip(lines[i]) == u && u != ""
  {
    var init := lines[..|lines| - 1];
    if u in ParseSentUsers(init) {
      i := SentUsersSound(init, u);
      assert init[i] == lines[i];
    } else {
      i := |lines| - 1;
    }
  }

  /** A user counts as contacted exactly when some line of the log names them. */
  lemma {:induction false} ParseSentUsersMembers(lines: seq<string>, u: string)
    ensures u in ParseSentUsers(lines) <==> u != "" && exists i :: 0 <= i < |lines| && Strip(lines[i]) == u
  {
    if u in ParseSentUsers(lines) {
      var i := SentUsersSound(lines, u);
    }
    if u != "" && exists i :: 0 <= i < |lines| && Strip(lines[i]) == u {
      var i :| 0 <= i < |lines| && Strip(lines[i]) == u;
      SentUsersComplete(lines, i);
    }
  }
}
