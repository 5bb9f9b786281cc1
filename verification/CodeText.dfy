/** A pairing code as text (core/src/code.rs): what is shown, and what parsing it gives
    back. */
module CodeText {
  import opened Bytes

  datatype Parsed = Parsed(slot: string, secret: string, relay: Option<string>)

  /** Unicode's `White_Space`, which is what Rust trims. */
  predicate IsSpace(c: char) {
    || '\U{9}' <= c <= '\U{D}' || c == ' ' || c == '\U{85}' || c == '\U{A0}' || c == '\U{1680}'
    || '\U{2000}' <= c <= '\U{200A}' || c == '\U{2028}' || c == '\U{2029}' || c == '\U{202F}'
    || c == '\U{205F}' || c == '\U{3000}'
  }

  function TrimStart(s: string): string {
    if |s| > 0 && IsSpace(s[0]) then TrimStart(s[1..]) else s
  }

  function TrimEnd(s: string): string {
    if |s| > 0 && IsSpace(s[|s| - 1]) then TrimEnd(s[..|s| - 1]) else s
  }

  function Trim(s: string): string {
    TrimStart(TrimEnd(s))
  }

  /** `trim_end_matches('/')`. */
  function TrimSlashes(s: string): string {
    if |s| > 0 && s[|s| - 1] == '/' then TrimSlashes(s[..|s| - 1]) else s
  }

  /** Where `c` first is, or the length. */
  function Find(s: string, c: char): (i: nat)
    ensures i <= |s| && (i < |s| ==> s[i] == c) && forall k :: 0 <= k < i ==> s[k] != c
  {
    if |s| == 0 || s[0] == c then 0 else 1 + Find(s[1..], c)
  }

  function CountOf(s: string, c: char): nat {
    if |s| == 0 then 0 else CountOf(s[..|s| - 1], c) + if s[|s| - 1] == c then 1 else 0
  }

  predicate Contains(s: string, t: string) {
    t <= s || (|s| > 0 && Contains(s[1..], t))
  }

  const SCHEME_MARK := "://"
  const HTTPS := "https://"

  /** `parse_code`; `None` is its refusal. */
  function ParseCode(code0: string): Option<Parsed> {
    var code := Trim(code0);
    var at := Find(code, '@');
    var aimed := at + 1 < |code|;
    var secret := if aimed then code[..at] else code;
    var relay := if aimed then Some(code[at + 1..]) else None;
    var slot := secret[..Find(secret, '-')];
    if slot == "" || CountOf(secret, '-') < 2 then None else Some(Parsed(slot, secret, relay))
  }

  function NormalizeRelay(raw: string): string {
    var r := Trim(raw);
    if Contains(r, SCHEME_MARK) then r else HTTPS + r
  }

  function CompactRelay(relay: string): string {
    if HTTPS <= relay then relay[|HTTPS|..] else relay
  }

  /** `CodeHost::shown`. */
  function Shown(secret: string, relay: string): string {
    secret + "@" + CompactRelay(relay)
  }

  /** What `exchange_bytes_with` makes of a code: slot, secret and the relay to go to. */
  function Resolved(code: string): Option<Parsed> {
    var p := ParseCode(code);
    if p.None? then None
    else Some(p.value.(relay := if p.value.relay.Some? then Some(NormalizeRelay(TrimSlashes(p.value.relay.value))) else None))
  }

  // ---- generated secrets ----------------------------------------------------------------

  predicate Word(w: string) {
    forall c :: c in w ==> 'a' <= c <= 'z'
  }

  predicate Digits(d: string) {
    |d| > 0 && forall c :: c in d ==> '0' <= c <= '9'
  }

  /** What `gen_secret` makes. */
  function Secret(slot: string, w1: string, w2: string): string {
    slot + "-" + w1 + "-" + w2
  }

  // ---- trimming ----------------------------------------------------------------------------

  lemma {:induction false} TrimEndKeeps(a: string, b: string)
    requires |a| > 0 && !IsSpace(a[|a| - 1])
    ensures TrimEnd(a + b) == a + TrimEnd(b)
  {
    if |b| == 0 {
      assert a + b == a;
      assert a + TrimEnd(b) == a;
    } else {
      var last := b[|b| - 1];
      assert (a + b)[|a + b| - 1] == last;
      if IsSpace(last) {
        assert (a + b)[..|a + b| - 1] == a + b[..|b| - 1];
        TrimEndKeeps(a, b[..|b| - 1]);
      }
    }
  }

  /** Trimming takes nothing exactly from what has nothing to take. */
  predicate Clean(s: string) {
    |s| > 0 && !IsSpace(s[0]) && !IsSpace(s[|s| - 1]) && s[|s| - 1] != '/'
  }

  lemma {:induction false} TrimEndShort(s: string)
    ensures TrimEnd(s) <= s && (TrimEnd(s) == s <==> |s| == 0 || !IsSpace(s[|s| - 1]))
  {
    if |s| > 0 && IsSpace(s[|s| - 1]) { TrimEndShort(s[..|s| - 1]); }
  }

  lemma {:induction false} TrimStartShort(s: string)
    ensures |TrimStart(s)| <= |s| && (TrimStart(s) == s <==> |s| == 0 || !IsSpace(s[0]))
  {
    if |s| > 0 && IsSpace(s[0]) { TrimStartShort(s[1..]); }
  }

  lemma {:induction false} TrimSlashesShort(s: string)
    ensures TrimSlashes(s) <= s && (TrimSlashes(s) == s <==> |s| == 0 || s[|s| - 1] != '/')
  {
    if |s| > 0 && s[|s| - 1] == '/' { TrimSlashesShort(s[..|s| - 1]); }
  }

  /** All that is trimmed off a relay on its way through a code. */
  function Stripped(s: string): string {
    Trim(TrimSlashes(TrimEnd(s)))
  }

  lemma StrippedIff(s: string)
    ensures |Stripped(s)| <= |s|
    ensures |s| > 0 ==> (Stripped(s) == s <==> Clean(s))
  {
    var a := TrimEnd(s);
    var b := TrimSlashes(a);
    var c := TrimEnd(b);
    TrimEndShort(s);
    TrimSlashesShort(a);
    TrimEndShort(b);
    TrimStartShort(c);
  }

  predicate Blank(s: string) {
    forall c :: c in s ==> IsSpace(c)
  }

  /** Trimming takes the spaces at the ends and nothing else. */
  lemma {:induction false} TrimIs(s: string) returns (a: string, b: string)
    ensures s == a + Trim(s) + b && Blank(a) && Blank(b)
    ensures Trim(s) == "" || (!IsSpace(Trim(s)[0]) && !IsSpace(Trim(s)[|Trim(s)| - 1]))
  {
    b := TrimEndIs(s);
    a := TrimStartIs(TrimEnd(s));
    TrimEndShort(TrimEnd(s));
  }

  /** And slashes at the end likewise, however many. */
  lemma {:induction false} TrimSlashesIs(s: string) returns (b: string)
    ensures s == TrimSlashes(s) + b && (forall c :: c in b ==> c == '/')
    ensures TrimSlashes(s) == "" || TrimSlashes(s)[|TrimSlashes(s)| - 1] != '/'
  {
    if |s| > 0 && s[|s| - 1] == '/' {
      b := TrimSlashesIs(s[..|s| - 1]);
      b := b + "/";
    } else {
      b := "";
    }
  }

  lemma {:induction false} ContainsIff(s: string, t: string)
    ensures Contains(s, t) <==> exists i :: 0 <= i <= |s| && t <= s[i..]
  {
    assert s[0..] == s;
    if |s| > 0 {
      ContainsIff(s[1..], t);
      if i :| 0 <= i <= |s[1..]| && t <= s[1..][i..] { assert s[1..][i..] == s[i + 1..]; }
      if i :| 0 <= i <= |s| && t <= s[i..] {
        if i > 0 { assert s[1..][i - 1..] == s[i..]; }
      }
    }
  }

  lemma {:induction false} TrimEndIs(s: string) returns (b: string)
    ensures s == TrimEnd(s) + b && Blank(b)
    ensures TrimEnd(TrimEnd(s)) == TrimEnd(s)
  {
    if |s| > 0 && IsSpace(s[|s| - 1]) {
      b := TrimEndIs(s[..|s| - 1]);
      b := b + [s[|s| - 1]];
    } else {
      b := "";
    }
  }

  lemma {:induction false} TrimStartIs(s: string) returns (a: string)
    ensures s == a + TrimStart(s) && Blank(a) && (TrimStart(s) == "" || !IsSpace(TrimStart(s)[0]))
    ensures TrimStart(s) != "" ==> TrimStart(s)[|TrimStart(s)| - 1] == s[|s| - 1]
  {
    if |s| > 0 && IsSpace(s[0]) {
      a := TrimStartIs(s[1..]);
      a := [s[0]] + a;
    } else {
      a := "";
    }
  }

  // ---- every code there can be ------------------------------------------------------------------

  lemma FindAt(s: string, c: char, i: nat)
    requires i <= |s| && (i < |s| ==> s[i] == c) && forall k :: 0 <= k < i ==> s[k] != c
    ensures Find(s, c) == i
  {
  }

  /** Two dashes are enough, counted from the left: one ends the slot, one more comes after. */
  lemma {:induction false} CountIsMember(s: string, c: char)
    ensures CountOf(s, c) > 0 <==> c in s
  {
    if |s| > 0 {
      CountIsMember(s[..|s| - 1], c);
      assert s == s[..|s| - 1] + [s[|s| - 1]];
    }
  }

  /** A secret of a slot, a dash and the rest is taken exactly if the slot is not empty and
      the rest has a dash of its own; a relay may follow it after an `@`. */
  lemma ParsesAs(code: string, slot: string, rest: string, relay: Option<string>)
    requires var secret := slot + "-" + rest;
      '-' !in slot && '@' !in secret && (relay.Some? ==> relay.value != "")
      && Trim(code) == if relay.Some? then secret + "@" + relay.value else secret
    ensures ParseCode(code) == if slot != "" && '-' in rest then Some(Parsed(slot, slot + "-" + rest, relay)) else None
  {
    var secret, t := slot + "-" + rest, Trim(code);
    if relay.Some? {
      assert t[|secret|] == '@' && forall k :: 0 <= k < |secret| ==> t[k] == secret[k];
      forall k | 0 <= k < |secret| ensures t[k] != '@' { assert secret[k] in secret; }
      FindAt(t, '@', |secret|);
      assert t[..|secret|] == secret && t[|secret| + 1..] == relay.value;
    } else {
      forall k | 0 <= k < |t| ensures t[k] != '@' { assert t[k] in secret; }
      FindAt(t, '@', |t|);
    }
    assert secret[|slot|] == '-';
    forall k | 0 <= k < |slot| ensures secret[k] != '-' { assert secret[k] == slot[k] && slot[k] in slot; }
    FindAt(secret, '-', |slot|);
    assert secret[..|slot|] == slot;
    CountJoin(slot + "-", rest, '-');
    CountJoin(slot, "-", '-');
    assert CountOf("-", '-') == 1;
    CountIsMember(slot, '-');
    CountIsMember(rest, '-');
  }

  /** One with no dash before its `@` is refused. */
  lemma NoDashIsRefused(code: string, head: string, relay: Option<string>)
    requires '@' !in head && '-' !in head && (relay.Some? ==> relay.value != "")
    requires Trim(code) == if relay.Some? then head + "@" + relay.value else head
    ensures ParseCode(code) == None
  {
    var t := Trim(code);
    CountIsMember(head, '-');
    forall k | 0 <= k < |head| ensures t[k] == head[k] && t[k] != '@' { assert head[k] in head; }
    FindAt(t, '@', |head|);
    assert t[..|head|] == head;
  }

  /** One that ends at its first `@` is a secret that has the `@` in it, and no relay. */
  lemma EndsInAt(code: string, head: string)
    requires '@' !in head && Trim(code) == head + "@"
    ensures ParseCode(code) == if CountOf(head, '-') >= 2 && head[0] != '-'
                               then Some(Parsed(head[..Find(head, '-')], head + "@", None)) else None
  {
    var t := Trim(code);
    CountIsMember(head, '-');
    forall k | 0 <= k < |head| ensures t[k] == head[k] && t[k] != '@' { assert head[k] in head; }
    FindAt(t, '@', |head|);
    CountJoin(head, "@", '-');
    assert CountOf("@", '-') == 0;
    hide Trim, CountOf, Find;
    assert t[..|head|] == head && t[|head| + 1..] == "";
    if '-' in head {
      FirstDash(head);
      DashStays(head, head[..Find(head, '-')]);
      assert head[..Find(head, '-')] == "" <==> head[0] == '-';
    }
  }

  lemma FirstDash(s: string)
    requires '-' in s
    ensures Find(s, '-') < |s|
  {
  }

  // ---- a shown code parses back ---------------------------------------------------------------

  lemma {:induction false} CountJoin(a: string, b: string, c: char)
    ensures CountOf(a + b, c) == CountOf(a, c) + CountOf(b, c)
  {
    if |b| == 0 {
      assert a + b == a;
    } else {
      assert (a + b)[..|a + b| - 1] == a + b[..|b| - 1];
      CountJoin(a, b[..|b| - 1], c);
    }
  }

  lemma SecretShape(slot: string, w1: string, w2: string)
    requires Digits(slot) && Word(w1) && Word(w2)
    ensures var secret := Secret(slot, w1, w2);
      && |secret| > 0 && !IsSpace(secret[0]) && secret[..Find(secret, '-')] == slot
      && CountOf(secret, '-') >= 2 && (forall k :: 0 <= k < |secret| ==> secret[k] != '@')
  {
    var secret := Secret(slot, w1, w2);
    assert secret[0] == slot[0] && slot[0] in slot;
    forall k | 0 <= k < |slot| ensures secret[k] == slot[k] != '-' { assert slot[k] in slot; }
    assert secret[|slot|] == '-';
    assert Find(secret, '-') == |slot|;
    assert secret[..|slot|] == slot;
    CountJoin(slot + "-" + w1, "-" + w2, '-');
    CountJoin(slot + "-", w1, '-');
    CountJoin(slot, "-", '-');
    CountJoin("-", w2, '-');
    assert slot + "-" + w1 + ("-" + w2) == secret;
    assert CountOf("-", '-') == 1;
    forall k | 0 <= k < |secret| ensures secret[k] != '@' {
      if k < |slot| { assert slot[k] in slot; }
      else if |slot| < k < |slot| + 1 + |w1| { assert secret[k] == w1[k - |slot| - 1] && w1[k - |slot| - 1] in w1; }
      else if k > |slot| + 1 + |w1| { assert secret[k] == w2[k - |slot| - |w1| - 2] && w2[k - |slot| - |w1| - 2] in w2; }
    }
  }

  /** What is parsed out of a shown code. */
  lemma ShownParses(slot: string, w1: string, w2: string, relay: string)
    requires Digits(slot) && Word(w1) && Word(w2)
    ensures var secret := Secret(slot, w1, w2);
      var rest := TrimEnd(CompactRelay(relay));
      var p := ParseCode(Shown(secret, relay));
      && (rest != "" ==> p == Some(Parsed(slot, secret, Some(rest))))
      && (rest == "" ==> p.Some? && p.value.relay == None && p.value.slot == slot && p.value.secret == secret + "@")
  {
    var secret := Secret(slot, w1, w2);
    SecretShape(slot, w1, w2);
    var head := secret + "@";
    var rest := TrimEnd(CompactRelay(relay));
    TrimEndKeeps(head, CompactRelay(relay));
    var code := head + rest;
    assert TrimEnd(Shown(secret, relay)) == code;
    assert code[0] == secret[0];
    TrimStartShort(code);
    assert Trim(Shown(secret, relay)) == code;
    assert code[|secret|] == '@' && forall k :: 0 <= k < |secret| ==> code[k] == secret[k];
    assert Find(code, '@') == |secret|;
    assert code[..|secret|] == secret && code[|secret| + 1..] == rest;
    if rest == "" {
      assert code == head;
      CountJoin(secret, "@", '-');
      DashStays(secret, slot);
    }
  }

  lemma DashStays(secret: string, slot: string)
    requires secret[..Find(secret, '-')] == slot && Find(secret, '-') < |secret|
    ensures (secret + "@")[..Find(secret + "@", '-')] == slot
  {
    var i := Find(secret, '-');
    assert (secret + "@")[i] == '-' && forall k :: 0 <= k < i ==> (secret + "@")[k] == secret[k];
    assert Find(secret + "@", '-') == i;
    assert (secret + "@")[..i] == secret[..i];
  }

  /** The relays a code carries faithfully: with a scheme, one `https://` may stand for
      and no other in what is left, and nothing at its ends that is trimmed. */
  predicate Carried(relay: string) {
    && Clean(CompactRelay(relay))
    && (if HTTPS <= relay then !Contains(CompactRelay(relay), SCHEME_MARK) else Contains(relay, SCHEME_MARK))
  }

  /** A shown code gives back the host's slot, secret and relay exactly when its relay is
      one of those. */
  lemma ShownResolvesIff(slot: string, w1: string, w2: string, relay: string)
    requires Digits(slot) && Word(w1) && Word(w2)
    ensures var secret := Secret(slot, w1, w2);
      Resolved(Shown(secret, relay)) == Some(Parsed(slot, secret, Some(relay))) <==> Carried(relay)
  {
    hide Contains, IsSpace;
    var c := CompactRelay(relay);
    ShownParses(slot, w1, w2, relay);
    TrimEndShort(c);
    if TrimEnd(c) != "" {
      StrippedIff(c);
      var r := Stripped(c);
      assert NormalizeRelay(TrimSlashes(TrimEnd(c))) == if Contains(r, SCHEME_MARK) then r else HTTPS + r;
      if HTTPS <= relay {
        assert relay == HTTPS + c;
        assert HTTPS + r == HTTPS + c <==> r == c by {
          assert (HTTPS + r)[|HTTPS|..] == r && (HTTPS + c)[|HTTPS|..] == c;
        }
      } else {
        assert HTTPS <= HTTPS + r;
      }
    }
  }
}
