/**
 * Message templates: `DataLoader.process_spintax` and the choice of the
 * inline button attached to a message (`TelegramSender.create_button_markup`
 * and the start of `send_message_to_user`).
 *
 * The two regular expressions are matched by hand. A match of
 * `\{button:([^|]+)\|([^}]+)\}` at the front of a text is fixed by the text:
 * the first group runs up to the first `|`, the second up to the next `}`, and
 * neither may be empty. A match of `\{([^}]+)\}` runs from a `{` to the next
 * `}` with something in between. `re.search` takes the leftmost match and
 * `re.sub` scans left to right, replacing each match and resuming after it.
 */
module Template {
  import opened Wrappers
  import opened Text

  datatype ButtonData = ButtonData(text: string, url: string)

  // ------------------------------------------------------------ directives

  const ButtonPrefix: string := "{button:"

  /**
   * The positions of the `|` and of the closing `}` of a button directive at
   * the front of `s`, if one starts there.
   */
  function ButtonAt(s: string): (m: Option<(nat, nat)>)
    ensures m.Some? ==> StartsWith(s, ButtonPrefix)
    ensures m.Some? ==> |ButtonPrefix| < m.value.0 && m.value.0 + 1 < m.value.1 < |s|
    ensures m.Some? ==> s[m.value.0] == '|' && '|' !in s[|ButtonPrefix|..m.value.0]
    ensures m.Some? ==> s[m.value.1] == '}' && '}' !in s[m.value.0 + 1..m.value.1]
  {
    if s == [] || s[0] != '{' || !StartsWith(s, ButtonPrefix) then None
    else
      match Find(s, '|', |ButtonPrefix|)
      case None => None
      case Some(q) =>
        if q == |ButtonPrefix| then None
        else
          match Find(s, '}', q + 1)
          case None => None
          case Some(r) => if r == q + 1 then None else Some((q, r))
  }

  /** The text of the directive `{button:T|U}`. */
  function Directive(d: ButtonData): string {
    ButtonPrefix + d.text + "|" + d.url + "}"
  }

  /** What the pattern's groups can hold: `T` has no `|`, `U` no `}`, neither is empty. */
  predicate WellFormed(d: ButtonData) {
    d.text != "" && '|' !in d.text && d.url != "" && '}' !in d.url
  }

  /** A well-formed directive is matched, and exactly up to its own `}`, whatever follows it. */
  lemma {:induction false} ButtonAtDirective(d: ButtonData, rest: string)
    requires WellFormed(d)
    ensures ButtonAt(Directive(d) + rest) == Some((|ButtonPrefix| + |d.text|, |ButtonPrefix| + |d.text| + 1 + |d.url|))
  {
    var s := Directive(d) + rest;
    var n := |ButtonPrefix|;
    var q := n + |d.text|;
    var r := q + 1 + |d.url|;
    assert s == ButtonPrefix + d.text + ['|'] + d.url + ['}'] + rest;
    assert s[..n] == ButtonPrefix;
    assert s[n..q] == d.text && s[q] == '|';
    FindFirst(s, '|', n, q);
    assert s[q + 1..r] == d.url && s[r] == '}';
    FindFirst(s, '}', q + 1, r);
  }

  /** The leftmost position where a button directive starts: `re.search`. */
  function FirstButton(s: string): (p: Option<nat>)
    ensures p.Some? ==> p.value < |s| && ButtonAt(s[p.value..]).Some?
    ensures p.Some? ==> forall i :: 0 <= i < p.value ==> ButtonAt(s[i..]).None?
    ensures p.None? ==> forall i :: 0 <= i < |s| ==> ButtonAt(s[i..]).None?
    decreases |s|
  {
    if s == [] then None
    else if ButtonAt(s).Some? then Some(0)
    else
      var p := FirstButton(s[1..]);
      var r := match p case None => None case Some(k) => Some(k + 1);
      assert forall i :: 1 <= i <= |s| ==> ButtonAt(s[i..]) == ButtonAt(s[1..][i - 1..]) by {
        forall i | 1 <= i <= |s| ensures ButtonAt(s[i..]) == ButtonAt(s[1..][i - 1..]) {
          assert s[1..][i - 1..] == s[i..];
        }
      }
      r
  }

  /** `g` does not contain `{button:`, so no directive starts and ends inside it. */
  predicate NoDirectiveIn(g: string) {
    forall i :: 0 <= i < |g| ==> !StartsWith(g[i..], ButtonPrefix)
  }

  lemma NoDirectiveInTail(g: string)
    requires g != [] && NoDirectiveIn(g)
    ensures NoDirectiveIn(g[1..])
  {
    forall i | 0 <= i < |g| - 1 ensures !StartsWith(g[1..][i..], ButtonPrefix) {
      assert g[1..][i..] == g[i + 1..];
    }
  }

  /**
   * Nor does a directive start inside `g` and run on into what follows, when
   * that is the end of the text or another `{`: the only `{` of `{button:` is
   * its first character.
   */
  lemma {:induction false} NoButtonInGap(g: string, rest: string, i: nat)
    requires NoDirectiveIn(g) && (rest == [] || rest[0] == '{') && i < |g|
    ensures ButtonAt((g + rest)[i..]).None?
  {
    var s := (g + rest)[i..];
    var n := |ButtonPrefix|;
    assert s == g[i..] + rest;
    if |s| >= n {
      if |g| - i >= n {
        assert !StartsWith(g[i..], ButtonPrefix);
        assert s[..n] == g[i..][..n];
      } else {
        var j := |g| - i;
        assert s[j] == rest[0] == '{';
        assert s[..n][j] != ButtonPrefix[j];
      }
    }
  }

  /** The leftmost directive is the first one after a text that holds none. */
  lemma {:induction false} FirstButtonAfter(a: string, rest: string)
    requires NoDirectiveIn(a) && ButtonAt(rest).Some?
    ensures FirstButton(a + rest) == Some(|a|)
  {
    if a != [] {
      assert rest[0] == rest[..|ButtonPrefix|][0] == '{';
      assert (a + rest)[1..] == a[1..] + rest;
      NoDirectiveInTail(a);
      FirstButtonAfter(a[1..], rest);
      NoButtonInGap(a, rest, 0);
      assert (a + rest)[0..] == a + rest;
    } else {
      assert a + rest == rest;
    }
  }

  /** The button of the directive at the front of `s`, both groups stripped. */
  function ButtonOf(s: string): ButtonData
    requires ButtonAt(s).Some?
  {
    var m := ButtonAt(s).value;
    ButtonData(Strip(s[|ButtonPrefix|..m.0]), Strip(s[m.0 + 1..m.1]))
  }

  /** `re.sub(button_pattern, '', s)`: every directive met by the left-to-right scan is deleted. */
  function RemoveButtons(s: string): (r: string)
    ensures |r| <= |s|
    decreases |s|
  {
    if s == [] then []
    else
      match ButtonAt(s)
      case Some(m) => RemoveButtons(s[m.1 + 1..])
      case None => [s[0]] + RemoveButtons(s[1..])
  }

  /** Text holding no directive is copied as it is, when the end or a `{` follows it. */
  lemma {:induction false} RemoveButtonsPlain(a: string, rest: string)
    requires NoDirectiveIn(a) && (rest == [] || rest[0] == '{')
    ensures RemoveButtons(a + rest) == a + RemoveButtons(rest)
  {
    if a != [] {
      var s := a + rest;
      NoButtonInGap(a, rest, 0);
      assert s[0..] == s;
      RemoveButtonsChar(s);
      assert s[1..] == a[1..] + rest && s[0] == a[0];
      NoDirectiveInTail(a);
      RemoveButtonsPlain(a[1..], rest);
      HeadTail(a, RemoveButtons(rest));
    } else {
      assert a + rest == rest;
    }
  }

  /** Where no directive starts, the first character is copied. */
  lemma RemoveButtonsChar(s: string)
    requires s != [] && ButtonAt(s).None?
    ensures RemoveButtons(s) == [s[0]] + RemoveButtons(s[1..])
  {
  }

  /** A well-formed directive disappears whole. */
  lemma {:induction false} RemoveButtonsDirective(d: ButtonData, rest: string)
    requires WellFormed(d)
    ensures RemoveButtons(Directive(d) + rest) == RemoveButtons(rest)
  {
    var s := Directive(d) + rest;
    ButtonAtDirective(d, rest);
    assert s[|Directive(d)|..] == rest;
  }

  /** Text woven from `gaps` with a directive between each two of them. */
  function Weave(gaps: seq<string>, ds: seq<ButtonData>): string
    requires |gaps| == |ds| + 1
  {
    if ds == [] then gaps[0] else gaps[0] + Directive(ds[0]) + Weave(gaps[1..], ds[1..])
  }

  function Concat(gaps: seq<string>): string {
    if gaps == [] then [] else gaps[0] + Concat(gaps[1..])
  }

  /** No gap holds a directive of its own; spin groups and other braces are allowed. */
  predicate Plain(gaps: seq<string>) {
    forall i :: 0 <= i < |gaps| ==> NoDirectiveIn(gaps[i])
  }

  /** No gap holds a brace at all. */
  predicate BraceFree(gaps: seq<string>) {
    forall i :: 0 <= i < |gaps| ==> '{' !in gaps[i]
  }

  /** Every directive of the text is removed, not only the first. */
  lemma {:induction false} RemoveButtonsWoven(gaps: seq<string>, ds: seq<ButtonData>)
    requires |gaps| == |ds| + 1 && Plain(gaps)
    requires forall i :: 0 <= i < |ds| ==> WellFormed(ds[i])
    ensures RemoveButtons(Weave(gaps, ds)) == Concat(gaps)
  {
    if ds == [] {
      RemoveButtonsPlain(gaps[0], []);
      assert gaps[0] + [] == gaps[0];
      assert Concat(gaps) == gaps[0] + Concat([]);
    } else {
      var tail := Weave(gaps[1..], ds[1..]);
      assert NoDirectiveIn(gaps[0]) && WellFormed(ds[0]);
      assert Weave(gaps, ds) == gaps[0] + (Directive(ds[0]) + tail);
      assert (Directive(ds[0]) + tail)[0] == '{';
      RemoveButtonsPlain(gaps[0], Directive(ds[0]) + tail);
      RemoveButtonsDirective(ds[0], tail);
      assert Plain(gaps[1..]) by {
        forall i | 0 <= i < |gaps| - 1 ensures NoDirectiveIn(gaps[1..][i]) {
          assert gaps[1..][i] == gaps[i + 1];
        }
      }
      assert forall i :: 0 <= i < |ds| - 1 ==> WellFormed(ds[1..][i]) by {
        forall i | 0 <= i < |ds| - 1 ensures WellFormed(ds[1..][i]) {
          assert ds[1..][i] == ds[i + 1];
        }
      }
      RemoveButtonsWoven(gaps[1..], ds[1..]);
    }
  }

  /** Text without `{` holds no directive. */
  lemma {:induction false} FirstButtonPlain(s: string)
    requires '{' !in s
    ensures FirstButton(s).None?
  {
    if s != [] {
      FirstButtonPlain(s[1..]);
    }
  }

  // ----------------------------------------------------------------- spin

  /** The position of the `}` closing a spin group `{...}` at the front of `s`, if one starts there. */
  function GroupAt(s: string): (r: Option<nat>)
    ensures r.Some? ==> 1 < r.value < |s| && s[0] == '{' && s[r.value] == '}' && '}' !in s[1..r.value]
  {
    if s == [] || s[0] != '{' then None
    else
      match Find(s, '}', 1)
      case None => None
      case Some(r) => if r == 1 then None else Some(r)
  }

  /** `random.choice(group.split('|')).strip()`, the `k`-th choice drawn among the alternatives. */
  function Choose(group: string, k: nat): (r: string)
    ensures exists j :: 0 <= j < |Split(group, '|')| && r == Strip(Split(group, '|')[j])
  {
    var options := Split(group, '|');
    var j := k % |options|;
    assert Strip(options[j]) == Strip(Split(group, '|')[j]);
    Strip(options[j])
  }

  /**
   * `re.sub(r'\{([^}]+)\}', replace_spin, s)`: each group replaced by one of
   * its alternatives; `pick(n)` is the random draw made for the `n`-th group.
   */
  function Spin(s: string, n: nat, pick: nat -> nat): string
    decreases |s|
  {
    if s == [] then []
    else
      match GroupAt(s)
      case Some(r) => Choose(s[1..r], pick(n)) + Spin(s[r + 1..], n + 1, pick)
      case None => [s[0]] + Spin(s[1..], n, pick)
  }

  /** Text without `{` is copied as it is. */
  lemma {:induction false} SpinPlain(a: string, rest: string, n: nat, pick: nat -> nat)
    requires '{' !in a
    ensures Spin(a + rest, n, pick) == a + Spin(rest, n, pick)
  {
    if a != [] {
      var s := a + rest;
      assert s[0] == a[0] && s[1..] == a[1..] + rest;
      SpinChar(s, n, pick);
      SpinPlain(a[1..], rest, n, pick);
      HeadTail(a, Spin(rest, n, pick));
    } else {
      assert a + rest == rest;
    }
  }

  lemma HeadTail(a: string, x: string)
    requires a != []
    ensures [a[0]] + (a[1..] + x) == a + x
  {
    assert a == [a[0]] + a[1..];
  }

  /** A character other than `{` is copied. */
  lemma SpinChar(s: string, n: nat, pick: nat -> nat)
    requires s != [] && s[0] != '{'
    ensures Spin(s, n, pick) == [s[0]] + Spin(s[1..], n, pick)
  {
  }

  /** A group `{g}` becomes the alternative drawn for it. */
  lemma {:induction false} SpinGroup(g: string, rest: string, n: nat, pick: nat -> nat)
    requires g != [] && '}' !in g
    ensures Spin("{" + g + "}" + rest, n, pick) == Choose(g, pick(n)) + Spin(rest, n + 1, pick)
  {
    var s := "{" + g + "}" + rest;
    var r := |g| + 1;
    assert s[1..r] == g && s[r] == '}';
    FindFirst(s, '}', 1, r);
    assert s[r + 1..] == rest;
  }

  /** The alternatives of a group are its `|`-separated parts: the draw selects one of them, stripped. */
  lemma {:induction false} ChooseAlternative(alts: seq<string>, k: nat)
    requires |alts| >= 1 && forall i :: 0 <= i < |alts| ==> '|' !in alts[i]
    ensures Choose(Join(alts, '|'), k) == Strip(alts[k % |alts|])
  {
    SplitJoin(alts, '|');
  }

  /** A group without `|` only loses its braces (and the whitespace at its ends). */
  lemma {:induction false} ChooseSingle(g: string, k: nat)
    requires '|' !in g
    ensures Choose(g, k) == Strip(g)
  {
    SplitNoSep(g, '|');
  }

  // ------------------------------------------------------------- process

  /**
   * `process_spintax`: the button of the leftmost directive, then every
   * directive removed, then every spin group resolved.
   */
  function ProcessSpintax(t: string, pick: nat -> nat): (string, Option<ButtonData>) {
    match FirstButton(t)
    case None => (Spin(t, 0, pick), None)
    case Some(p) => (Spin(RemoveButtons(t), 0, pick), Some(ButtonOf(t[p..])))
  }

  /** A template without braces is sent as it is, with no button. */
  lemma {:induction false} LiteralTemplate(t: string, pick: nat -> nat)
    requires '{' !in t
    ensures ProcessSpintax(t, pick) == (t, None)
  {
    FirstButtonPlain(t);
    SpinPlain(t, [], 0, pick);
    assert t + [] == t;
  }

  /**
   * A template made of button directives and text around them, spin groups
   * included, loses every directive before its spin groups are resolved, and
   * the first directive gives the button, stripped. Without any braces
   * besides the directives the text is sent as it is.
   */
  lemma {:induction false} ButtonTemplate(gaps: seq<string>, ds: seq<ButtonData>, pick: nat -> nat)
    requires |gaps| == |ds| + 1 && |ds| >= 1 && Plain(gaps)
    requires forall i :: 0 <= i < |ds| ==> WellFormed(ds[i])
    ensures ProcessSpintax(Weave(gaps, ds), pick)
         == (Spin(Concat(gaps), 0, pick), Some(ButtonData(Strip(ds[0].text), Strip(ds[0].url))))
    ensures BraceFree(gaps) ==> ProcessSpintax(Weave(gaps, ds), pick).0 == Concat(gaps)
  {
    FirstButtonWoven(gaps, ds);
    RemoveButtonsWoven(gaps, ds);
    if BraceFree(gaps) {
      ConcatPlain(gaps);
      SpinPlain(Concat(gaps), [], 0, pick);
      assert Concat(gaps) + [] == Concat(gaps);
    }
  }

  /** The leftmost directive of a woven text is its first one. */
  lemma {:induction false} FirstButtonWoven(gaps: seq<string>, ds: seq<ButtonData>)
    requires |gaps| == |ds| + 1 && |ds| >= 1 && Plain(gaps)
    requires forall i :: 0 <= i < |ds| ==> WellFormed(ds[i])
    ensures FirstButton(Weave(gaps, ds)) == Some(|gaps[0]|)
    ensures ButtonOf(Weave(gaps, ds)[|gaps[0]|..]) == ButtonData(Strip(ds[0].text), Strip(ds[0].url))
  {
    var t := Weave(gaps, ds);
    var tail := Weave(gaps[1..], ds[1..]);
    var d := ds[0];
    var n := |ButtonPrefix|;
    var p := |gaps[0]|;
    assert NoDirectiveIn(gaps[0]) && WellFormed(d);
    assert t == gaps[0] + (Directive(d) + tail);
    ButtonAtDirective(d, tail);
    FirstButtonAfter(gaps[0], Directive(d) + tail);
    assert t[p..] == Directive(d) + tail;
    ButtonOfDirective(d, tail);
  }

  /** The button of a directive is its two groups, stripped. */
  lemma {:induction false} ButtonOfDirective(d: ButtonData, tail: string)
    requires WellFormed(d)
    ensures ButtonAt(Directive(d) + tail).Some?
    ensures ButtonOf(Directive(d) + tail) == ButtonData(Strip(d.text), Strip(d.url))
  {
    var u := Directive(d) + tail;
    var n := |ButtonPrefix|;
    ButtonAtDirective(d, tail);
    var m := ButtonAt(u).value;
    assert u[n..m.0] == d.text && u[m.0 + 1..m.1] == d.url by {
      assert u == ButtonPrefix + d.text + ['|'] + d.url + ['}'] + tail;
    }
  }

  lemma {:induction false} ConcatPlain(gaps: seq<string>)
    requires BraceFree(gaps)
    ensures '{' !in Concat(gaps)
  {
    if gaps != [] {
      assert BraceFree(gaps[1..]) by {
        forall i | 0 <= i < |gaps| - 1 ensures '{' !in gaps[1..][i] {
          assert gaps[1..][i] == gaps[i + 1];
        }
      }
      ConcatPlain(gaps[1..]);
      assert '{' !in gaps[0];
    }
  }

  // --------------------------------------------------------------- button

  predicate HasWebScheme(url: string) {
    StartsWith(url, "http://") || StartsWith(url, "https://")
  }

  /**
   * `create_button_markup`: no button when the text or the URL is empty;
   * otherwise the URL, with `https://` put in front unless it already names
   * `http://` or `https://`.
   */
  function ButtonMarkup(text: string, url: string): (b: Option<ButtonData>)
    ensures b.None? <==> text == "" || url == ""
    ensures b.Some? ==> b.value.text == text && HasWebScheme(b.value.url)
    ensures b.Some? ==> b.value.url == url || b.value.url == "https://" + url
  {
    if text == "" || url == "" then None
    else if HasWebScheme(url) then Some(ButtonData(text, url))
    else
      var full := "https://" + url;
      assert full[..8] == "https://";
      Some(ButtonData(text, full))
  }

  /** A URL that already has a scheme is kept, and making a markup from a markup changes nothing. */
  lemma {:induction false} ButtonMarkupIdempotent(text: string, url: string)
    requires ButtonMarkup(text, url).Some?
    ensures HasWebScheme(url) ==> ButtonMarkup(text, url).value.url == url
    ensures ButtonMarkup(text, ButtonMarkup(text, url).value.url) == ButtonMarkup(text, url)
  {
  }

  /**
   * The button a message is sent with: the one of the message's own directive
   * when it has one, otherwise the configured one if its text and URL are
   * both set (`""` stands for a setting that is missing or empty).
   */
  function ChosenButton(fromMessage: Option<ButtonData>, configText: string, configUrl: string): (b: Option<ButtonData>)
    ensures fromMessage.Some? ==> b == fromMessage
    ensures fromMessage.None? ==> (b.Some? <==> configText != "" && configUrl != "")
    ensures fromMessage.None? && b.Some? ==> b.value == ButtonData(configText, configUrl)
  {
    if fromMessage.Some? then fromMessage
    else if configText != "" && configUrl != "" then Some(ButtonData(configText, configUrl))
    else None
  }

  /** The markup the message is sent with, if any. */
  function SendMarkup(fromMessage: Option<ButtonData>, configText: string, configUrl: string): Option<ButtonData> {
    match ChosenButton(fromMessage, configText, configUrl)
    case None => None
    case Some(b) => ButtonMarkup(b.text, b.url)
  }

  /**
   * A directive in the message wins over the configuration even when its text
   * or URL strips to nothing: the message then goes without a button.
   */
  lemma {:induction false} MessageButtonWins(fromMessage: ButtonData, configText: string, configUrl: string)
    ensures SendMarkup(Some(fromMessage), configText, configUrl) == ButtonMarkup(fromMessage.text, fromMessage.url)
    ensures fromMessage.text == "" ==> SendMarkup(Some(fromMessage), configText, configUrl).None?
  {
  }
}
