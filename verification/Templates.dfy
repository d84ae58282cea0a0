/** Installing a configuration template: every `@KEY` is replaced by its value, one key after
    another, in whatever order the substitution map is iterated. */
module Templates {
  import opened Text
  import opened Wrappers

  type Substitutions = map<string, string>

  /** The reference: every mark is replaced at once, in one pass, values are never rescanned. */
  ghost function OnePass(s: string, subs: Substitutions): string
    decreases |s|
  {
    if s == "" then ""
    else if s[0] == '@' && StartsKey(s, subs.Keys) then
      var k :| k in subs && "@" + k <= s;
      subs[k] + OnePass(s[1 + |k|..], subs)
    else [s[0]] + OnePass(s[1..], subs)
  }

  ghost predicate StartsKey(s: string, keys: set<string>) {
    exists k :: k in keys && "@" + k <= s
  }

  /** One key after another. */
  function InOrder(s: string, subs: Substitutions, order: seq<string>): string
    requires forall k | k in order :: k in subs
  {
    if order == [] then s
    else
      var last := order[|order| - 1];
      Replace(InOrder(s, subs, order[..|order| - 1]), "@" + last, subs[last])
  }

  ghost predicate IsOrder(order: seq<string>, keys: set<string>) {
    && (forall k :: k in order <==> k in keys)
    && (forall i, j | 0 <= i < j < |order| :: order[i] != order[j])
  }

  /** InstallConfigFile: a file that is already installed is kept. */
  method InstallConfigFile(source: string, subs: Substitutions, existing: Option<string>) returns (installed: string)
    ensures existing.Some? ==> installed == existing.value
    ensures existing.None? ==> exists order :: IsOrder(order, subs.Keys) && installed == InOrder(source, subs, order)
  {
    var content := source;
    var left := subs.Keys;
    ghost var order: seq<string> := [];
    while left != {}
      invariant left <= subs.Keys
      invariant IsOrder(order, subs.Keys - left)
      invariant content == InOrder(source, subs, order)
      decreases left
    {
      var k :| k in left;
      content := Replace(content, "@" + k, subs[k]);
      ghost var before := order;
      order := order + [k];
      assert order[..|order| - 1] == before;
      left := left - {k};
    }
    assert IsOrder(order, subs.Keys);
    installed := content;
    if existing.Some? {
      installed := existing.value;
    }
  }

  // ---------------------------------------------------------------- when the order is irrelevant

  ghost predicate PrefixFree(keys: set<string>) {
    forall k, l | k in keys && l in keys && k <= l :: k == l
  }

  predicate NoMarks(texts: set<string>) { forall t | t in texts :: '@' !in t }

  /** Every '@' of the template starts a key. */
  ghost predicate Marked(s: string, keys: set<string>) {
    forall i | 0 <= i < |s| && s[i] == '@' :: StartsKey(s[i..], keys)
  }

  ghost predicate WellKeyed(subs: Substitutions) {
    PrefixFree(subs.Keys) && NoMarks(subs.Keys) && NoMarks(subs.Values)
  }

  lemma MarkedSuffix(s: string, keys: set<string>, n: nat)
    requires Marked(s, keys) && n <= |s|
    ensures Marked(s[n..], keys)
  {
    forall i | 0 <= i < |s[n..]| && s[n..][i] == '@' ensures StartsKey(s[n..][i..], keys) {
      assert s[n..][i..] == s[n + i..];
    }
  }

  lemma KeyIsUnique(s: string, keys: set<string>, k: string, l: string)
    requires PrefixFree(keys) && k in keys && l in keys && "@" + k <= s && "@" + l <= s
    ensures k == l
  {
    assert ("@" + k)[1..] == k && ("@" + l)[1..] == l;
    assert |k| <= |l| ==> k <= l;
    assert |l| <= |k| ==> l <= k;
  }

  /** How one pass treats a mark, when the keys are prefix-free. */
  lemma OnePassAtKey(k: string, rest: string, keys: set<string>, subs: Substitutions)
    requires PrefixFree(keys) && NoMarks(keys) && k in keys && subs.Keys <= keys
    ensures OnePass("@" + k + rest, subs) == (if k in subs then subs[k] else "@" + k) + OnePass(rest, subs)
  {
    if k in subs {
      OnePassReplaces(k, rest, keys, subs);
    } else {
      OnePassLeaves(k, rest, keys, subs);
    }
  }

  lemma OnlyKey(k: string, rest: string, keys: set<string>)
    requires PrefixFree(keys) && k in keys
    ensures forall l | l in keys && "@" + l <= "@" + k + rest :: l == k
  {
    forall l | l in keys && "@" + l <= "@" + k + rest ensures l == k {
      assert "@" + k <= "@" + k + rest;
      KeyIsUnique("@" + k + rest, keys, k, l);
    }
  }

  lemma OnePassReplaces(k: string, rest: string, keys: set<string>, subs: Substitutions)
    requires PrefixFree(keys) && k in keys && subs.Keys <= keys && k in subs
    ensures OnePass("@" + k + rest, subs) == subs[k] + OnePass(rest, subs)
  {
    var s := "@" + k + rest;
    OnlyKey(k, rest, keys);
    assert "@" + k <= s && s[1 + |k|..] == rest;
  }

  lemma OnePassLeaves(k: string, rest: string, keys: set<string>, subs: Substitutions)
    requires PrefixFree(keys) && NoMarks(keys) && k in keys && subs.Keys <= keys && k !in subs
    ensures OnePass("@" + k + rest, subs) == "@" + k + OnePass(rest, subs)
  {
    var s := "@" + k + rest;
    OnlyKey(k, rest, keys);
    assert !StartsKey(s, subs.Keys);
    assert s[1..] == k + rest;
    OnePassCopies(k, rest, subs);
    assert "@" + (k + OnePass(rest, subs)) == "@" + k + OnePass(rest, subs);
  }

  lemma {:induction false} OnePassCopies(p: string, s: string, subs: Substitutions)
    requires '@' !in p
    ensures OnePass(p + s, subs) == p + OnePass(s, subs)
  {
    if p == "" {
      assert p + s == s;
    } else {
      assert (p + s)[0] == p[0] && (p + s)[1..] == p[1..] + s;
      OnePassCopies(p[1..], s, subs);
      assert [p[0]] + (p[1..] + OnePass(s, subs)) == p + OnePass(s, subs);
    }
  }

  /** Replacing one more key in a partly substituted text is one pass with one more key. */
  lemma {:induction false} OneMoreKey(s: string, keys: set<string>, subs: Substitutions, k: string, v: string)
    requires PrefixFree(keys) && NoMarks(keys) && Marked(s, keys)
    requires subs.Keys <= keys && NoMarks(subs.Values) && k in keys && k !in subs
    ensures Replace(OnePass(s, subs), "@" + k, v) == OnePass(s, subs[k := v])
    decreases |s|
  {
    if s == "" {
    } else if s[0] != '@' {
      MarkedSuffix(s, keys, 1);
      OneMoreKey(s[1..], keys, subs, k, v);
      ReplaceCopies([s[0]], OnePass(s[1..], subs), "@" + k, v);
    } else {
      assert s[0..] == s && StartsKey(s, keys);
      var l :| l in keys && "@" + l <= s;
      var rest := s[1 + |l|..];
      assert s == "@" + l + rest;
      MarkedSuffix(s, keys, 1 + |l|);
      OneMoreKey(rest, keys, subs, k, v);
      OneMoreAtKey(l, rest, keys, subs, k, v);
    }
  }

  lemma OneMoreAtKey(l: string, rest: string, keys: set<string>, subs: Substitutions, k: string, v: string)
    requires PrefixFree(keys) && NoMarks(keys) && l in keys
    requires subs.Keys <= keys && NoMarks(subs.Values) && k in keys && k !in subs
    requires Replace(OnePass(rest, subs), "@" + k, v) == OnePass(rest, subs[k := v])
    ensures Replace(OnePass("@" + l + rest, subs), "@" + k, v) == OnePass("@" + l + rest, subs[k := v])
  {
    OnePassAtKey(l, rest, keys, subs);
    OnePassAtKey(l, rest, keys, subs[k := v]);
    var tail := OnePass(rest, subs);
    if l in subs {
      assert subs[l] in subs.Values;
      ReplaceCopies(subs[l], tail, "@" + k, v);
    } else if l == k {
      assert ("@" + k + tail)[|"@" + k|..] == tail;
    } else {
      SkipOtherKey(l, tail, keys, k, v);
    }
  }

  lemma SkipOtherKey(l: string, tail: string, keys: set<string>, k: string, v: string)
    requires PrefixFree(keys) && NoMarks(keys) && l in keys && k in keys && l != k
    ensures Replace("@" + l + tail, "@" + k, v) == "@" + l + Replace(tail, "@" + k, v)
  {
    var s := "@" + l + tail;
    if "@" + k <= s {
      KeyIsUnique(s, keys, k, l);
    }
    assert s[1..] == l + tail;
    ReplaceCopies(l, tail, "@" + k, v);
    assert "@" + (l + Replace(tail, "@" + k, v)) == "@" + l + Replace(tail, "@" + k, v);
  }

  lemma {:induction false} OnePassOfNothing(s: string)
    ensures OnePass(s, map[]) == s
  {
    if s != "" {
      OnePassOfNothing(s[1..]);
      assert s == [s[0]] + s[1..];
    }
  }

  function Restricted(subs: Substitutions, keys: seq<string>): Substitutions {
    map k | k in subs && k in keys :: subs[k]
  }

  /** Any order of the keys gives the text of the simultaneous substitution. */
  lemma {:induction false} AnyOrderIsOnePass(s: string, subs: Substitutions, order: seq<string>)
    requires WellKeyed(subs) && Marked(s, subs.Keys) && IsOrder(order, subs.Keys)
    ensures InOrder(s, subs, order) == OnePass(s, subs)
  {
    PartialOrder(s, subs, order, |order|);
    assert order[..|order|] == order;
    assert Restricted(subs, order) == subs;
  }

  lemma {:induction false} PartialOrder(s: string, subs: Substitutions, order: seq<string>, n: nat)
    requires WellKeyed(subs) && Marked(s, subs.Keys) && IsOrder(order, subs.Keys) && n <= |order|
    ensures InOrder(s, subs, order[..n]) == OnePass(s, Restricted(subs, order[..n]))
  {
    if n == 0 {
      OnePassOfNothing(s);
      assert Restricted(subs, order[..0]) == map[];
    } else {
      var done := Restricted(subs, order[..n - 1]);
      var last := order[n - 1];
      PartialOrder(s, subs, order, n - 1);
      assert order[..n][..n - 1] == order[..n - 1] && last in order;
      assert last !in order[..n - 1];
      assert done.Values <= subs.Values;
      OneMoreKey(s, subs.Keys, done, last, subs[last]);
      assert order[..n] == order[..n - 1] + [last];
      assert Restricted(subs, order[..n]) == done[last := subs[last]];
    }
  }

  /** So the installed file does not depend on the iteration order. */
  lemma InstalledIsOnePass(s: string, subs: Substitutions, installed: string)
    requires WellKeyed(subs) && Marked(s, subs.Keys)
    requires exists order :: IsOrder(order, subs.Keys) && installed == InOrder(s, subs, order)
    ensures installed == OnePass(s, subs)
  {
    var order :| IsOrder(order, subs.Keys) && installed == InOrder(s, subs, order);
    AnyOrderIsOnePass(s, subs, order);
  }

  const INSTANCE_KEYS := {"YAJUDGE_HOME", "CONFIG_NAME", "HOST_NAME", "HTTP_PORT", "ENABLE_GRADER", "MASTER_SERVICES"}
  const SERVICE_KEYS := {"YAJUDGE_HOME", "YAJUDGE_USER", "YAJUDGE_GROUP"}
  const WEB_SERVER_KEYS := {"HTTP_PORT"}

  /** The key sets that the two tools pass: two letters tell their keys apart. */
  lemma ToolKeysAreWellKeyed(keys: set<string>)
    requires keys == INSTANCE_KEYS || keys == SERVICE_KEYS || keys == WEB_SERVER_KEYS
    ensures PrefixFree(keys) && NoMarks(keys)
  {
    forall k | k in keys ensures '@' !in k {
      KeyIsUnmarked(k);
    }
    forall k, l | k in keys && l in keys && k <= l ensures k == l {
      if keys == INSTANCE_KEYS {
        InstanceKeysDiffer(k, l);
      } else {
        ServiceKeysDiffer(k, l);
      }
    }
  }

  lemma KeyIsUnmarked(k: string)
    requires k in INSTANCE_KEYS || k in SERVICE_KEYS || k in WEB_SERVER_KEYS
    ensures '@' !in k
  {
  }

  lemma InstanceKeysDiffer(k: string, l: string)
    requires k in INSTANCE_KEYS && l in INSTANCE_KEYS && k <= l
    ensures k == l
  {
    assert k[0] == l[0] && k[1] == l[1];
  }

  lemma ServiceKeysDiffer(k: string, l: string)
    requires k <= l
    requires (k in SERVICE_KEYS && l in SERVICE_KEYS) || (k in WEB_SERVER_KEYS && l in WEB_SERVER_KEYS)
    ensures k == l
  {
    assert k[8] == l[8];
  }

  // ---------------------------------------------------------------- when it is not

  /** A value with another key's mark: the result depends on the order. */
  lemma MarkInValueMatters(k: string, l: string, p: string, q: string, v: string)
    requires '@' !in k + l + p + q + v && !(k <= l) && !(l <= k)
    ensures var subs := map[k := p + ("@" + l + q), l := v];
            && PrefixFree(subs.Keys) && NoMarks(subs.Keys) && Marked("@" + k, subs.Keys)
            && InOrder("@" + k, subs, [k, l]) == p + (v + q)
            && InOrder("@" + k, subs, [l, k]) == p + ("@" + l + q)
            && p + (v + q) != p + ("@" + l + q)
  {
    var value := p + ("@" + l + q);
    var subs := map[k := value, l := v];
    MarksOf(k + l + p + q, v);
    MarksOf(k + l + p, q);
    MarksOf(k + l, p);
    MarksOf(k, l);
    InOrderOfTwo("@" + k, subs, k, l);
    InOrderOfTwo("@" + k, subs, l, k);
    AtKey(k, value);
    NotAtKey(k, l, v);
    KeyInside(p, l, q, v);
    assert ("@" + k)[0..] == "@" + k && "@" + k <= "@" + k;
  }

  lemma KeyInside(p: string, l: string, q: string, v: string)
    requires '@' !in p && '@' !in q && '@' !in v
    ensures Replace(p + ("@" + l + q), "@" + l, v) == p + (v + q) != p + ("@" + l + q)
  {
    ReplaceCopies(p, "@" + l + q, "@" + l, v);
    KeyThenText(l, q, v);
    assert '@' !in p + (v + q) && (p + ("@" + l + q))[|p|] == '@';
  }

  lemma MarksOf(a: string, b: string)
    requires '@' !in a + b
    ensures '@' !in a && '@' !in b
  {
    assert forall i | 0 <= i < |a| :: (a + b)[i] == a[i];
    assert forall i | 0 <= i < |b| :: (a + b)[|a| + i] == b[i];
  }

  lemma KeyThenText(l: string, q: string, v: string)
    requires '@' !in q
    ensures Replace("@" + l + q, "@" + l, v) == v + q
  {
    assert ("@" + l + q)[|"@" + l|..] == q;
    ReplaceCopies(q, "", "@" + l, v);
    assert q + "" == q;
  }

  /** A key with another key's mark inside: likewise, although every '@' of the template starts a
      key. */
  lemma MarkInKeyMatters(a: string, l: string, v: string, w: string)
    requires '@' !in a + l + v + w && !(l <= a + ("@" + l))
    ensures var k := a + ("@" + l);
            var subs := map[k := v, l := w];
            && PrefixFree(subs.Keys) && NoMarks(subs.Values) && Marked("@" + k, subs.Keys)
            && InOrder("@" + k, subs, [k, l]) == v
            && InOrder("@" + k, subs, [l, k]) == "@" + (a + w)
            && v != "@" + (a + w)
  {
    var k := a + ("@" + l);
    var subs := map[k := v, l := w];
    MarksOf(a + l + v, w);
    MarksOf(a + l, v);
    MarksOf(a, l);
    MarkedTwice(a, l, subs.Keys);
    assert !(k <= l) && v != "@" + (a + w) by {
      assert k[|a|] == '@' && ("@" + (a + w))[0] == '@';
    }
    InOrderOfTwo("@" + k, subs, k, l);
    InOrderOfTwo("@" + k, subs, l, k);
    AtKey(k, v);
    NotAtMark(v, l, w);
    InnerKeyReplaced(a, l, w);
    OuterKeyGone(a, l, v, w);
  }

  lemma MarkedTwice(a: string, l: string, keys: set<string>)
    requires '@' !in a && '@' !in l && a + ("@" + l) in keys && l in keys
    ensures Marked("@" + (a + ("@" + l)), keys)
  {
    var s := "@" + (a + ("@" + l));
    assert forall i | 0 < i < |a| + 1 :: s[i] == a[i - 1];
    assert forall i | |a| + 1 < i < |s| :: s[i] == l[i - |a| - 2];
    forall i | 0 <= i < |s| && s[i] == '@' ensures StartsKey(s[i..], keys) {
      if i == 0 {
        assert s[0..] == s;
      } else {
        assert s[i..] == "@" + l;
      }
    }
  }

  lemma NotAtMark(s: string, l: string, w: string)
    requires '@' !in s
    ensures Replace(s, "@" + l, w) == s
  {
    ReplaceCopies(s, "", "@" + l, w);
    assert s + "" == s;
  }

  lemma InnerKeyReplaced(a: string, l: string, w: string)
    requires '@' !in a && '@' !in l && !(l <= a + ("@" + l))
    ensures Replace("@" + (a + ("@" + l)), "@" + l, w) == "@" + (a + w)
  {
    var s := "@" + (a + ("@" + l));
    assert s[1..] == a + ("@" + l) && ("@" + l)[1..] == l;
    assert !("@" + l <= s);
    ReplaceCopies(a, "@" + l, "@" + l, w);
    AtKey(l, w);
  }

  lemma OuterKeyGone(a: string, l: string, v: string, w: string)
    requires '@' !in a && '@' !in w
    ensures Replace("@" + (a + w), "@" + (a + ("@" + l)), v) == "@" + (a + w)
  {
    var s, pattern := "@" + (a + w), "@" + (a + ("@" + l));
    assert pattern[|a| + 1] == '@' && (|w| > 0 ==> s[|a| + 1] == w[0]);
    assert !(pattern <= s);
    assert s[1..] == a + w;
    ReplaceCopies(a + w, "", pattern, v);
    assert a + w + "" == a + w;
  }

  /** A key that begins another one: replaced first, it takes the longer one apart. */
  lemma PrefixKeyMatters(k: string, l: string, v: string, w: string)
    requires '@' !in l && '@' !in v && '@' !in w && k < l
    ensures var subs := map[k := v, l := w];
            && NoMarks(subs.Keys) && NoMarks(subs.Values) && Marked("@" + l, subs.Keys)
            && InOrder("@" + l, subs, [l, k]) == w
            && InOrder("@" + l, subs, [k, l]) == v + l[|k|..]
  {
    var subs := map[k := v, l := w];
    assert l == k + l[|k|..];
    MarksOf(k, l[|k|..]);
    assert ("@" + l)[0..] == "@" + l && "@" + l <= "@" + l;
    InOrderOfTwo("@" + l, subs, k, l);
    InOrderOfTwo("@" + l, subs, l, k);
    AtKey(l, w);
    NotAtMark(w, k, v);
    assert "@" + l == "@" + k + l[|k|..];
    KeyThenText(k, l[|k|..], v);
    NotAtMark(v + l[|k|..], l, w);
  }

  /** A mark in the template that starts no key: a value may complete it to another key. */
  lemma StrayMarkMatters(k: string, l: string, v: string)
    requires k != "" && l != "" && '@' !in k && '@' !in l && '@' !in v && !(k <= l) && !(l <= k)
    ensures var subs := map[k := l, l := v];
            && WellKeyed(subs)
            && InOrder("@" + ("@" + k), subs, [k, l]) == v && InOrder("@" + ("@" + k), subs, [l, k]) == "@" + l
  {
    var subs := map[k := l, l := v];
    InOrderOfTwo("@" + ("@" + k), subs, k, l);
    InOrderOfTwo("@" + ("@" + k), subs, l, k);
    BehindStrayMark(k, k, l);
    BehindStrayMark(k, l, v);
    AtKey(k, l);
    AtKey(l, v);
    NotAtKey(k, l, v);
  }

  lemma InOrderOfTwo(s: string, subs: Substitutions, k: string, l: string)
    requires k in subs && l in subs
    ensures InOrder(s, subs, [k, l]) == Replace(Replace(s, "@" + k, subs[k]), "@" + l, subs[l])
  {
    assert [k, l][..1] == [k] && [k][..0] == [];
    assert InOrder(s, subs, [k]) == Replace(s, "@" + k, subs[k]);
  }

  lemma BehindStrayMark(k: string, p: string, v: string)
    requires p != "" && '@' !in p
    ensures Replace("@" + ("@" + k), "@" + p, v) == "@" + Replace("@" + k, "@" + p, v)
  {
    var s := "@" + ("@" + k);
    assert ("@" + p)[1] == p[0] && p[0] in p && s[1] == '@';
    assert s[1..] == "@" + k;
  }

  lemma AtKey(k: string, v: string)
    ensures Replace("@" + k, "@" + k, v) == v
  {
    assert ("@" + k)[|"@" + k|..] == "";
    assert v + "" == v;
  }

  lemma NotAtKey(k: string, l: string, v: string)
    requires '@' !in k && !(l <= k)
    ensures Replace("@" + k, "@" + l, v) == "@" + k
  {
    assert ("@" + l)[1..] == l && ("@" + k)[1..] == k;
    assert !("@" + l <= "@" + k);
    ReplaceCopies(k, "", "@" + l, v);
    assert ("@" + k)[1..] == k && k + "" == k;
  }
}
