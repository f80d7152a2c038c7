/**
  What the support bundle's redaction leaves of a document: the literal values
  of sensitive environment variables are withheld, everything else is kept.
 */
module EnvRedaction {
  import opened Options
  import opened JsonTree

  const ENV := Name("env")
  const NAME := Name("name")
  const VALUE := Name("value")
  const PLACEHOLDER := Prim(Text("**REDACTED-BY-KUBECTL-NEO4J**"))

  const SENSITIVE: seq<string> :=
    ["PASSWORD", "PASSWD", "SECRET", "TOKEN", "APIKEY", "API_KEY", "CREDENTIAL", "PRIVATE_KEY", "AUTH"]

  /**
    Unicode upper case, as far as it can produce the letters above: apart from
    a-z, only dotless i and long s have an ASCII letter as upper case.
   */
  function Upper(c: char): char {
    if 'a' <= c <= 'z' then c - 'a' + 'A'
    else if c == '\U{0131}' then 'I'
    else if c == '\U{017F}' then 'S'
    else c
  }

  predicate UpperMatchesAt(name: string, i: nat, needle: string)
    requires i + |needle| <= |name|
  {
    forall k | 0 <= k < |needle| :: Upper(name[i + k]) == needle[k]
  }

  predicate ContainsUpper(name: string, needle: string) {
    exists i: nat | i <= |name| - |needle| :: UpperMatchesAt(name, i, needle)
  }

  predicate LooksSensitive(name: string) {
    exists n | 0 <= n < |SENSITIVE| :: ContainsUpper(name, SENSITIVE[n])
  }

  /** `word` is `upper`, or `lower`, or a mixture; Unicode upper-cases dotless i and long s to ASCII letters as well. */
  predicate Spells(word: string, lower: string, upper: string)
    requires |lower| == |upper|
  {
    |word| == |upper| && forall k :: 0 <= k < |word| ==>
      || word[k] == upper[k] || word[k] == lower[k]
      || (upper[k] == 'I' && word[k] == '\U{0131}') || (upper[k] == 'S' && word[k] == '\U{017F}')
  }

  /** The words, written out. */
  predicate SpellsSensitive(word: string) {
    || Spells(word, "password", "PASSWORD") || Spells(word, "passwd", "PASSWD") || Spells(word, "secret", "SECRET")
    || Spells(word, "token", "TOKEN") || Spells(word, "apikey", "APIKEY") || Spells(word, "api_key", "API_KEY")
    || Spells(word, "credential", "CREDENTIAL") || Spells(word, "private_key", "PRIVATE_KEY") || Spells(word, "auth", "AUTH")
  }

  predicate IsUpperOf(lower: char, upper: char) {
    ('A' <= upper <= 'Z' && lower as int == upper as int + 32) || (upper == lower == '_')
  }

  predicate AreUpperOf(lower: string, upper: string) {
    |lower| == |upper| && forall k :: 0 <= k < |upper| ==> IsUpperOf(lower[k], upper[k])
  }

  lemma UpperIs(c: char, lower: char, upper: char)
    requires IsUpperOf(lower, upper)
    ensures Upper(c) == upper <==>
      c == upper || c == lower || (upper == 'I' && c == '\U{0131}') || (upper == 'S' && c == '\U{017F}')
  {
  }

  lemma SpellsIff(word: string, lower: string, upper: string)
    requires AreUpperOf(lower, upper) && |word| == |upper|
    ensures UpperMatchesAt(word, 0, upper) <==> Spells(word, lower, upper)
  {
    forall k | 0 <= k < |word| ensures Upper(word[0 + k]) == upper[k] <==>
      || word[k] == upper[k] || word[k] == lower[k]
      || (upper[k] == 'I' && word[k] == '\U{0131}') || (upper[k] == 'S' && word[k] == '\U{017F}')
    {
      UpperIs(word[k], lower[k], upper[k]);
    }
    if UpperMatchesAt(word, 0, upper) {
      assert forall k :: 0 <= k < |word| ==> Upper(word[0 + k]) == upper[k];
    }
  }

  ghost predicate Occurs(name: string, lower: string, upper: string)
    requires |lower| == |upper|
  {
    exists before, word, after :: name == before + word + after && Spells(word, lower, upper)
  }

  lemma OccursAt(name: string, i: nat, lower: string, upper: string)
    requires AreUpperOf(lower, upper) && i + |upper| <= |name| && UpperMatchesAt(name, i, upper)
    ensures Occurs(name, lower, upper)
  {
    var n := i + |upper|;
    var word := name[i..n];
    forall k | 0 <= k < |upper| ensures Upper(word[0 + k]) == upper[k] {
      assert Upper(name[i + k]) == upper[k];
    }
    SpellsIff(word, lower, upper);
    assert name == name[..i] + word + name[n..];
  }

  lemma MatchesBehind(name: string, before: string, word: string, after: string, lower: string, upper: string)
    requires AreUpperOf(lower, upper) && name == before + word + after && Spells(word, lower, upper)
    ensures UpperMatchesAt(name, |before|, upper)
  {
    SpellsIff(word, lower, upper);
    forall k | 0 <= k < |upper| ensures Upper(name[|before| + k]) == upper[k] {
      assert Upper(word[0 + k]) == upper[k];
    }
  }

  /** A word is found in any letter case, anywhere in a name, and nothing else is found. */
  lemma ContainsUpperIff(name: string, lower: string, upper: string)
    requires AreUpperOf(lower, upper)
    ensures ContainsUpper(name, upper) <==> Occurs(name, lower, upper)
  {
    if ContainsUpper(name, upper) {
      var i: nat :| i <= |name| - |upper| && UpperMatchesAt(name, i, upper);
      OccursAt(name, i, lower, upper);
    }
    if Occurs(name, lower, upper) {
      var before, word, after :| name == before + word + after && Spells(word, lower, upper);
      MatchesBehind(name, before, word, after, lower, upper);
    }
  }

  /** `name` contains one of the words, in any letter case. */
  ghost predicate Sensitive(name: string) {
    exists before, word, after :: name == before + word + after && SpellsSensitive(word)
  }

  lemma SensitiveWords(name: string)
    ensures LooksSensitive(name) <==>
      || ContainsUpper(name, "PASSWORD") || ContainsUpper(name, "PASSWD") || ContainsUpper(name, "SECRET")
      || ContainsUpper(name, "TOKEN") || ContainsUpper(name, "APIKEY") || ContainsUpper(name, "API_KEY")
      || ContainsUpper(name, "CREDENTIAL") || ContainsUpper(name, "PRIVATE_KEY") || ContainsUpper(name, "AUTH")
  {
    assert SENSITIVE[0] == "PASSWORD" && SENSITIVE[1] == "PASSWD" && SENSITIVE[2] == "SECRET" && SENSITIVE[3] == "TOKEN";
    assert SENSITIVE[4] == "APIKEY" && SENSITIVE[5] == "API_KEY" && SENSITIVE[6] == "CREDENTIAL";
    assert SENSITIVE[7] == "PRIVATE_KEY" && SENSITIVE[8] == "AUTH";
  }

  lemma ShortWords(name: string)
    ensures ContainsUpper(name, "PASSWORD") <==> Occurs(name, "password", "PASSWORD")
    ensures ContainsUpper(name, "PASSWD") <==> Occurs(name, "passwd", "PASSWD")
    ensures ContainsUpper(name, "SECRET") <==> Occurs(name, "secret", "SECRET")
    ensures ContainsUpper(name, "TOKEN") <==> Occurs(name, "token", "TOKEN")
    ensures ContainsUpper(name, "AUTH") <==> Occurs(name, "auth", "AUTH")
  {
    ContainsUpperIff(name, "password", "PASSWORD");
    ContainsUpperIff(name, "passwd", "PASSWD");
    ContainsUpperIff(name, "secret", "SECRET");
    ContainsUpperIff(name, "token", "TOKEN");
    ContainsUpperIff(name, "auth", "AUTH");
  }

  lemma LongWords(name: string)
    ensures ContainsUpper(name, "APIKEY") <==> Occurs(name, "apikey", "APIKEY")
    ensures ContainsUpper(name, "API_KEY") <==> Occurs(name, "api_key", "API_KEY")
    ensures ContainsUpper(name, "CREDENTIAL") <==> Occurs(name, "credential", "CREDENTIAL")
    ensures ContainsUpper(name, "PRIVATE_KEY") <==> Occurs(name, "private_key", "PRIVATE_KEY")
  {
    ContainsUpperIff(name, "apikey", "APIKEY");
    ContainsUpperIff(name, "api_key", "API_KEY");
    ContainsUpperIff(name, "credential", "CREDENTIAL");
    ContainsUpperIff(name, "private_key", "PRIVATE_KEY");
  }

  /** The names whose values are withheld are exactly those that contain one of the nine words, in any letter case. */
  lemma LooksSensitiveIff(name: string)
    ensures LooksSensitive(name) <==> Sensitive(name)
  {
    SensitiveWords(name);
    ShortWords(name);
    LongWords(name);
  }

  /** The entry's `name` when it is a string, else the empty string. */
  function NameOf(entry: Json): string {
    if entry.Obj? && NAME in entry.fields && entry.fields[NAME].Prim? && entry.fields[NAME].p.Text?
    then entry.fields[NAME].p.text else ""
  }

  /** An environment variable with a literal value under a sensitive name. */
  predicate HasSecret(entry: Json) {
    entry.Obj? && VALUE in entry.fields && LooksSensitive(NameOf(entry))
  }

  function RedactedEntry(entry: Json): Json {
    if HasSecret(entry) then Obj(entry.fields[VALUE := PLACEHOLDER]) else entry
  }

  /** The child reached by `step` is a list of environment variables. */
  predicate IsEnvList(step: Step, child: Json) {
    step == Key(ENV) && child.Arr?
  }

  function RedactedList(list: Json): Json
    requires list.Arr?
  {
    Arr(seq(|list.items|, i requires 0 <= i < |list.items| => RedactedEntry(list.items[i])))
  }

  function Redacted(j: Json): Json {
    match j
    case Obj(m) =>
      Obj(map k | k in m :: if IsEnvList(Key(k), m[k]) then RedactedList(m[k]) else Redacted(m[k]))
    case Arr(items) => Arr(seq(|items|, i requires 0 <= i < |items| => Redacted(items[i])))
    case _ => j
  }

  /** The child reached by `step`, redacted. */
  function RedactedAt(step: Step, child: Json): Json {
    if IsEnvList(step, child) then RedactedList(child) else Redacted(child)
  }

  /** `p` leads to an entry with a secret, through no environment list but its own. */
  predicate Exposed(j: Json, p: Path)
    decreases |p|, 1
  {
    p != [] && Child(j, p[0]).Some? && ExposedUnder(p[0], Child(j, p[0]).value, p[1..])
  }

  /** The same for the child reached by `step`, with `p` counted from there. */
  predicate ExposedUnder(step: Step, child: Json, p: Path)
    decreases |p|, 2
  {
    if IsEnvList(step, child)
    then |p| == 1 && Child(child, p[0]).Some? && HasSecret(Child(child, p[0]).value)
    else Exposed(child, p)
  }

  lemma RedactedChild(j: Json, step: Step)
    ensures Child(j, step).None? <==> Child(Redacted(j), step).None?
    ensures Child(j, step).Some? ==>
      var c := Child(j, step).value;
      Child(Redacted(j), step) == Some(RedactedAt(step, c))
  {
  }

  lemma RedactedEntryKeeps(entry: Json)
    ensures HasSecret(RedactedEntry(entry)) == HasSecret(entry)
    ensures HasSecret(entry) ==> RedactedEntry(entry).fields[VALUE] == PLACEHOLDER
    ensures RedactedEntry(RedactedEntry(entry)) == RedactedEntry(entry)
  {
    if HasSecret(entry) {
      assert NameOf(RedactedEntry(entry)) == NameOf(entry);
      assert RedactedEntry(entry).fields[VALUE := PLACEHOLDER] == RedactedEntry(entry).fields;
    }
  }

  /** The same entries are found as before, and each now shows the placeholder. */
  lemma {:induction false} NothingExposedRemains(j: Json, p: Path)
    ensures Exposed(Redacted(j), p) <==> Exposed(j, p)
    ensures Exposed(j, p) ==> At(Redacted(j), p + [Key(VALUE)]) == Some(PLACEHOLDER)
    decreases |p|
  {
    if p != [] {
      RedactedChild(j, p[0]);
      if Child(j, p[0]).Some? {
        var c := Child(j, p[0]).value;
        var q := p + [Key(VALUE)];
        assert q[0] == p[0] && q[1..] == p[1..] + [Key(VALUE)];
        if IsEnvList(p[0], c) {
          ListExposedRemains(c, p[1..]);
        } else {
          NothingExposedRemains(c, p[1..]);
        }
      }
    }
  }

  lemma ListExposedRemains(list: Json, p: Path)
    requires list.Arr?
    ensures ExposedUnder(Key(ENV), RedactedList(list), p) <==> ExposedUnder(Key(ENV), list, p)
    ensures ExposedUnder(Key(ENV), list, p) ==> At(RedactedList(list), p + [Key(VALUE)]) == Some(PLACEHOLDER)
  {
    if |p| == 1 && Child(list, p[0]).Some? {
      var e := Child(list, p[0]).value;
      RedactedEntryKeeps(e);
      assert Child(RedactedList(list), p[0]) == Some(RedactedEntry(e));
      assert (p + [Key(VALUE)])[1..] == [Key(VALUE)];
      if HasSecret(e) {
        assert At(RedactedEntry(e), [Key(VALUE)]) == Some(PLACEHOLDER);
      }
    }
  }

  // ---- Which entries these are, in terms of the document alone ----

  /** An object with a value, under a name that is a string and sensitive. */
  ghost predicate SecretEntry(e: Json) {
    && e.Obj? && Name("value") in e.fields && Name("name") in e.fields
    && e.fields[Name("name")].Prim? && e.fields[Name("name")].p.Text? && Sensitive(e.fields[Name("name")].p.text)
  }

  lemma HasSecretIff(e: Json)
    ensures HasSecret(e) <==> SecretEntry(e)
  {
    LooksSensitiveIff(NameOf(e));
    EmptyNotSensitive();
  }

  lemma EmptyNotSensitive()
    ensures !LooksSensitive("")
  {
    SensitiveWords("");
  }

  /** `p` leads to an array under the key `env`. */
  predicate EnvListAt(j: Json, p: Path) {
    p != [] && p[|p| - 1] == Key(Name("env")) && At(j, p).Some? && At(j, p).value.Arr?
  }

  lemma EnvListBelow(j: Json, p: Path, n: nat)
    requires p != [] && Child(j, p[0]).Some? && 2 <= n <= |p|
    ensures EnvListAt(j, p[..n]) <==> EnvListAt(Child(j, p[0]).value, p[1..][..n - 1])
  {
    assert p[..n][1..] == p[1..][..n - 1] && p[..n][0] == p[0];
  }

  /** An entry of an `env` array that lies in no other `env` array, and has a secret. */
  ghost predicate SecretAt(j: Json, p: Path) {
    && |p| >= 2 && EnvListAt(j, p[..|p| - 1]) && (forall n :: 0 < n < |p| - 1 ==> !EnvListAt(j, p[..n]))
    && At(j, p).Some? && SecretEntry(At(j, p).value)
  }

  lemma {:induction false} ExposedIff(j: Json, p: Path)
    ensures Exposed(j, p) <==> SecretAt(j, p)
    decreases |p|
  {
    if p != [] && Child(j, p[0]).Some? {
      if IsEnvList(p[0], Child(j, p[0]).value) {
        ExposedInList(j, p);
      } else {
        ExposedIff(Child(j, p[0]).value, p[1..]);
        SecretBelow(j, p);
      }
    }
  }

  lemma ExposedInList(j: Json, p: Path)
    requires p != [] && Child(j, p[0]).Some? && IsEnvList(p[0], Child(j, p[0]).value)
    ensures Exposed(j, p) <==> SecretAt(j, p)
  {
    var c := Child(j, p[0]).value;
    assert p[..1][1..] == [] && EnvListAt(j, p[..1]);
    if |p| == 2 {
      assert p[1..][1..] == [] && At(j, p) == At(c, p[1..]);
      if Child(c, p[1]).Some? {
        assert At(c, p[1..]) == At(Child(c, p[1]).value, []) == Child(c, p[1]);
        HasSecretIff(Child(c, p[1]).value);
      }
    }
  }

  lemma SecretBelow(j: Json, p: Path)
    requires p != [] && Child(j, p[0]).Some? && !IsEnvList(p[0], Child(j, p[0]).value)
    ensures SecretAt(j, p) <==> SecretAt(Child(j, p[0]).value, p[1..])
  {
    var c, rest := Child(j, p[0]).value, p[1..];
    assert p[..1][1..] == [] && At(j, p[..1]) == At(c, []) == Some(c) && !EnvListAt(j, p[..1]);
    forall n | 2 <= n <= |p| ensures EnvListAt(j, p[..n]) <==> EnvListAt(c, rest[..n - 1]) {
      EnvListBelow(j, p, n);
    }
    forall n | 1 <= n <= |rest| ensures EnvListAt(c, rest[..n]) <==> EnvListAt(j, p[..n + 1]) {
      EnvListBelow(j, p, n + 1);
    }
  }

  /** Every such entry shows the placeholder afterwards, wherever in the document it lies. */
  lemma SecretsWithheld(j: Json, p: Path)
    requires SecretAt(j, p)
    ensures At(Redacted(j), p + [Key(Name("value"))]) == Some(Prim(Text("**REDACTED-BY-KUBECTL-NEO4J**")))
  {
    ExposedIff(j, p);
    NothingExposedRemains(j, p);
  }

  /** Two values that differ at most below their own node. */
  predicate SameNode(a: Json, b: Json) {
    match a
    case Obj(m) => b.Obj? && b.fields.Keys == m.Keys
    case Arr(items) => b.Arr? && |b.items| == |items|
    case _ => a == b
  }

  /** `p` is the withheld value of an exposed entry, or lies below it. */
  predicate Withheld(j: Json, p: Path) {
    exists n | 0 <= n < |p| :: p[n] == Key(VALUE) && Exposed(j, p[..n])
  }

  /** Everywhere else the document keeps its keys, lengths and scalars, and gains nothing. */
  lemma {:induction false} RestUnchanged(j: Json, p: Path)
    requires !Withheld(j, p)
    ensures At(j, p).None? <==> At(Redacted(j), p).None?
    ensures At(j, p).Some? ==> SameNode(At(j, p).value, At(Redacted(j), p).value)
    decreases |p|
  {
    if p != [] {
      RedactedChild(j, p[0]);
      if Child(j, p[0]).Some? {
        var c := Child(j, p[0]).value;
        if IsEnvList(p[0], c) {
          ListUnchanged(j, p);
        } else {
          NotWithheldBelow(j, p);
          RestUnchanged(c, p[1..]);
        }
      }
    }
  }

  lemma NotWithheldBelow(j: Json, p: Path)
    requires p != [] && !Withheld(j, p) && Child(j, p[0]).Some? && !IsEnvList(p[0], Child(j, p[0]).value)
    ensures !Withheld(Child(j, p[0]).value, p[1..])
  {
    var c, rest := Child(j, p[0]).value, p[1..];
    forall n | 0 <= n < |rest| && rest[n] == Key(VALUE) ensures !Exposed(c, rest[..n]) {
      var q := p[..n + 1];
      assert q[0] == p[0] && q[1..] == rest[..n] && p[n + 1] == Key(VALUE);
      assert Exposed(j, q) <==> ExposedUnder(p[0], c, q[1..]);
    }
  }

  lemma ListUnchanged(j: Json, p: Path)
    requires p != [] && Child(j, p[0]).Some? && IsEnvList(p[0], Child(j, p[0]).value) && !Withheld(j, p)
    ensures At(j, p).None? <==> At(Redacted(j), p).None?
    ensures At(j, p).Some? ==> SameNode(At(j, p).value, At(Redacted(j), p).value)
  {
    RedactedChild(j, p[0]);
    var c := Child(j, p[0]).value;
    if |p| >= 2 && Child(c, p[1]).Some? {
      var e := Child(c, p[1]).value;
      if HasSecret(e) {
        assert Exposed(j, p[..2]);
      }
      EntryUnchanged(e, p[2..]);
      assert p[1..][1..] == p[2..];
      assert Child(RedactedList(c), p[1]) == Some(RedactedEntry(e));
    }
  }

  lemma EntryUnchanged(e: Json, p: Path)
    requires HasSecret(e) && p != [] ==> p[0] != Key(VALUE)
    ensures At(e, p).None? <==> At(RedactedEntry(e), p).None?
    ensures At(e, p).Some? ==> SameNode(At(e, p).value, At(RedactedEntry(e), p).value)
  {
    if HasSecret(e) && p != [] {
      assert Child(RedactedEntry(e), p[0]) == Child(e, p[0]);
    }
  }

  /** A second pass changes nothing. */
  lemma {:induction false} Idempotent(j: Json)
    ensures Redacted(Redacted(j)) == Redacted(j)
    decreases j
  {
    match j {
      case Obj(m) =>
        forall k | k in m ensures Redacted(Redacted(j)).fields[k] == Redacted(j).fields[k] {
          if IsEnvList(Key(k), m[k]) {
            ListIdempotent(m[k]);
          } else {
            Idempotent(m[k]);
          }
        }
        assert Redacted(Redacted(j)).fields == Redacted(j).fields;
      case Arr(items) =>
        forall i | 0 <= i < |items| ensures Redacted(Redacted(items[i])) == Redacted(items[i]) {
          Idempotent(items[i]);
        }
        assert Redacted(Redacted(j)).items == Redacted(j).items;
      case _ =>
    }
  }

  lemma ListIdempotent(list: Json)
    requires list.Arr?
    ensures RedactedList(RedactedList(list)) == RedactedList(list)
  {
    forall i | 0 <= i < |list.items| ensures RedactedEntry(RedactedEntry(list.items[i])) == RedactedEntry(list.items[i]) {
      RedactedEntryKeeps(list.items[i]);
    }
    assert RedactedList(RedactedList(list)).items == RedactedList(list).items;
  }
}
