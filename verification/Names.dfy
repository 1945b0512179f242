/** The names the wirer derives (internal/wiring/kagent.go): a DNS label from a
    model reference, the backend suffix, and the placeholder Secret's name. */
module Names {
  import opened Text

  const MAX_NAME_LENGTH := 63
  const KEY_SUFFIX := "-api-key"
  const HEX := "0123456789abcdef"

  predicate Letter(c: char) { 'a' <= c <= 'z' }
  predicate Digit(c: char) { '0' <= c <= '9' }
  predicate Alnum(c: char) { Letter(c) || Digit(c) }

  predicate LabelChars(s: string) {
    forall i :: 0 <= i < |s| ==> Alnum(s[i]) || s[i] == '-'
  }

  /** A lower-case host label: section 2.1 of RFC 1123, at most the 63 octets
      of section 2.3.4 of RFC 1035. */
  predicate IsLabel(s: string) {
    0 < |s| <= 63 && LabelChars(s) && Alnum(s[0]) && Alnum(s[|s| - 1])
  }

  /** unicode.ToLower as far as it reaches the letters a-z: the ASCII capitals,
      the Kelvin sign and the dotted capital I. Every other rune stays outside a-z. */
  function Lower(c: char): char {
    if 'A' <= c <= 'Z' then 'a' + (c - 'A')
    else if c == '\U{212A}' then 'k'
    else if c == '\U{0130}' then 'i'
    else c
  }

  /** unicode.IsSpace. */
  predicate Space(c: char) {
    || '\t' <= c <= '\r' || c == ' ' || c == '\U{0085}' || c == '\U{00A0}' || c == '\U{1680}'
    || '\U{2000}' <= c <= '\U{200A}' || c in {'\U{2028}', '\U{2029}', '\U{202F}', '\U{205F}', '\U{3000}'}
  }

  function LowerAll(s: string): (r: string)
    ensures |r| == |s|
    ensures forall i :: 0 <= i < |s| ==> r[i] == Lower(s[i])
  {
    if s == [] then [] else [Lower(s[0])] + LowerAll(s[1..])
  }

  function TrimSpace(s: string): (r: string)
    decreases |s|
  {
    if s == [] then s
    else if Space(s[0]) then TrimSpace(s[1..])
    else if Space(s[|s| - 1]) then TrimSpace(s[..|s| - 1])
    else s
  }

  /** Unicode's white space. */
  const BLANKS := {'\t', '\n', '\U{000B}', '\U{000C}', '\r', ' ', '\U{0085}', '\U{00A0}', '\U{1680}', '\U{2000}', '\U{2001}', '\U{2002}',
                   '\U{2003}', '\U{2004}', '\U{2005}', '\U{2006}', '\U{2007}', '\U{2008}', '\U{2009}', '\U{200A}', '\U{2028}',
                   '\U{2029}', '\U{202F}', '\U{205F}', '\U{3000}'}

  /** Nothing is left exactly of a text of white space alone. */
  lemma {:induction false} BlankIsTrimmed(s: string)
    ensures TrimSpace(s) == "" <==> forall c :: c in s ==> c in BLANKS
    decreases |s|
  {
    if s == "" {
    } else if Space(s[0]) {
      BlankIsTrimmed(s[1..]);
      SpaceIsBlank(s[0]);
      assert s == [s[0]] + s[1..];
    } else {
      SpaceIsBlank(s[0]);
      assert s[0] in s;
      StillThere(s);
    }
  }

  lemma SpaceIsBlank(c: char)
    ensures Space(c) <==> c in BLANKS
  {
  }

  lemma {:induction false} StillThere(s: string)
    requires s != "" && !Space(s[0])
    ensures TrimSpace(s) != ""
    decreases |s|
  {
    if Space(s[|s| - 1]) { StillThere(s[..|s| - 1]); }
  }

  function Raw(model: string): string { LowerAll(TrimSpace(model)) }

  /** What is left of the builder's loop: every run of other characters becomes
      one dash, none at the start. */
  function Dashed(raw: string, lastDash: bool): string
  {
    if raw == [] then []
    else if Alnum(raw[0]) then [raw[0]] + Dashed(raw[1..], false)
    else if lastDash then Dashed(raw[1..], true)
    else "-" + Dashed(raw[1..], true)
  }

  function Hex8(n: nat): (r: string)
    ensures |r| == 8 && forall i :: 0 <= i < 8 ==> Alnum(r[i])
  {
    HexDigits(n, 8)
  }

  function HexDigits(n: nat, width: nat): (r: string)
    ensures |r| == width && forall i :: 0 <= i < width ==> Alnum(r[i])
  {
    if width == 0 then [] else HexDigits(n / 16, width - 1) + [HEX[n % 16]]
  }

  /** The stem before the length is judged. */
  function Stem(prefix: string, raw: string): (r: string)
  {
    var word := TrimRight(Dashed(raw, true), '-');
    var word := if word == "" then "model" else word;
    var word := if Digit(word[0]) then "m-" + word else word;
    if prefix == "" then word else TrimRight(prefix, '-') + "-" + word
  }

  function Shorten(stem: string, digest: nat): (r: string)
  {
    if |stem| > MAX_NAME_LENGTH
    then TrimRight(stem[..MAX_NAME_LENGTH - 9], '-') + "-" + Hex8(digest)
    else stem
  }

  /** ModelConfigName, fnv being the digest of the reference. */
  function Derived(prefix: string, model: string, fnv: string -> nat): string {
    Shorten(Stem(prefix, Raw(model)), fnv(Raw(model)))
  }

  /** The loop over the reference: a builder and a lastDash flag. */
  method Build(raw: string) returns (b: string)
    ensures b == Dashed(raw, true)
  {
    var lastDash := true;
    b := "";
    for i := 0 to |raw|
      invariant b + Dashed(raw[i..], lastDash) == Dashed(raw, true)
    {
      assert raw[i..] == [raw[i]] + raw[i + 1..];
      if Alnum(raw[i]) {
        b, lastDash := b + [raw[i]], false;
      } else if !lastDash {
        b, lastDash := b + "-", true;
      }
    }
  }

  /** ModelConfigName as the source writes it. */
  method ModelConfigName(prefix: string, model: string, fnv: string -> nat) returns (name: string)
    ensures name == Derived(prefix, model, fnv)
  {
    var raw := Raw(model);
    name := Build(raw);
    name := TrimRight(name, '-');
    if name == "" { name := "model"; }
    if Digit(name[0]) { name := "m-" + name; }
    if prefix != "" { name := TrimRight(prefix, '-') + "-" + name; }
    if |name| > MAX_NAME_LENGTH {
      var suffix := "-" + Hex8(fnv(raw));
      name := TrimRight(name[..MAX_NAME_LENGTH - |suffix|], '-') + suffix;
    }
  }

  /** The maximal runs of a-z and 0-9, which is all of a reference its name keeps. */
  function Words(raw: string): (r: seq<string>)
    decreases |raw|
  {
    if raw == [] then []
    else if !Alnum(raw[0]) then Words(raw[1..])
    else [raw[..Run(raw)]] + Words(raw[Run(raw)..])
  }

  function Run(s: string): (n: nat)
    ensures n <= |s| && (forall i :: 0 <= i < n ==> Alnum(s[i])) && (n < |s| ==> !Alnum(s[n]))
    ensures s != [] && Alnum(s[0]) ==> n > 0
  {
    if s == [] || !Alnum(s[0]) then 0 else 1 + Run(s[1..])
  }

  function Join(words: seq<string>): string {
    if words == [] then "" else if |words| == 1 then words[0] else words[0] + "-" + Join(words[1..])
  }

  /** The builder's text without its trailing dash is the words joined by dashes. */
  lemma {:induction false} DashedIsWords(raw: string)
    ensures TrimRight(Dashed(raw, true), '-') == Join(Words(raw))
    decreases |raw|
  {
    if raw == [] {
    } else if !Alnum(raw[0]) {
      DashedIsWords(raw[1..]);
    } else {
      var n := Run(raw);
      var word, rest := raw[..n], raw[n..];
      DashedRun(raw, n);
      if rest == [] {
        assert word == raw;
        TrimRightNoop(raw, '-');
      } else {
        DashedIsWords(rest[1..]);
        WordsNonempty(rest[1..]);
        JoinWord(word, Dashed(rest[1..], true), Words(rest[1..]));
      }
    }
  }

  lemma JoinWord(word: string, tail: string, words: seq<string>)
    requires word != "" && word[|word| - 1] != '-'
    requires TrimRight(tail, '-') == Join(words) && (words != [] ==> Join(words) != "")
    ensures TrimRight(word + ("-" + tail), '-') == Join([word] + words)
  {
    assert word + ("-" + tail) == (word + "-") + tail;
    TrimAppend(word + "-", tail);
    if words == [] {
      TrimAppend(word, "-");
      TrimRightNoop(word, '-');
    } else {
      JoinFirst(word, words);
    }
  }

  lemma JoinFirst(word: string, words: seq<string>)
    requires words != []
    ensures Join([word] + words) == word + "-" + Join(words)
  {
    assert ([word] + words)[1..] == words;
  }

  lemma {:induction false} DashedRun(raw: string, n: nat)
    requires n <= |raw| && forall i :: 0 <= i < n ==> Alnum(raw[i])
    ensures n > 0 ==> Dashed(raw, true) == raw[..n] + Dashed(raw[n..], false)
    ensures Dashed(raw, false) == raw[..n] + Dashed(raw[n..], false)
  {
    if n == 0 {
      assert raw[..0] == "" && raw[0..] == raw;
    } else {
      DashedRun(raw[1..], n - 1);
      assert raw[1..][n - 1..] == raw[n..];
      assert raw[..n] == [raw[0]] + raw[1..][..n - 1];
    }
  }

  lemma WordsNonempty(raw: string)
    ensures forall w :: w in Words(raw) ==> w != ""
    ensures Words(raw) != [] ==> Join(Words(raw)) != ""
    decreases |raw|
  {
    if raw != [] {
      if Alnum(raw[0]) { WordsNonempty(raw[Run(raw)..]); } else { WordsNonempty(raw[1..]); }
    }
  }

  lemma {:induction false} TrimAppend(a: string, b: string)
    ensures TrimRight(a + b, '-') == if TrimRight(b, '-') == "" then TrimRight(a, '-') else a + TrimRight(b, '-')
    decreases |b|
  {
    if b == "" {
      assert a + b == a;
    } else if b[|b| - 1] == '-' {
      TrimAppend(a, b[..|b| - 1]);
      assert (a + b)[..|a + b| - 1] == a + b[..|b| - 1];
    }
  }

  /** No two dashes in a row. */
  predicate SingleDashes(s: string) {
    forall i {:trigger s[i]} :: 0 < i < |s| && s[i] == '-' ==> s[i - 1] != '-'
  }

  lemma {:induction false} DashedShape(raw: string, lastDash: bool)
    ensures LabelChars(Dashed(raw, lastDash)) && SingleDashes(Dashed(raw, lastDash))
    ensures lastDash && Dashed(raw, lastDash) != "" ==> Alnum(Dashed(raw, lastDash)[0])
  {
    if raw != [] {
      DashedShape(raw[1..], if Alnum(raw[0]) then false else true);
    }
  }

  /** A name as the derivation leaves it under the empty prefix. */
  predicate Normal(s: string) {
    s != "" && LabelChars(s) && SingleDashes(s) && Letter(s[0]) && Alnum(s[|s| - 1])
  }

  lemma StemNormal(raw: string)
    ensures Normal(Stem("", raw))
  {
    DashedShape(raw, true);
    var word := TrimRight(Dashed(raw, true), '-');
    assert LabelChars(word) && SingleDashes(word);
  }

  lemma ShortenLabel(stem: string, digest: nat)
    requires stem != "" && LabelChars(stem) && Alnum(stem[0]) && Alnum(stem[|stem| - 1])
    ensures IsLabel(Shorten(stem, digest)) && Shorten(stem, digest)[0] == stem[0]
    ensures SingleDashes(stem) ==> SingleDashes(Shorten(stem, digest))
  {
    if |stem| > MAX_NAME_LENGTH {
      var head := stem[..MAX_NAME_LENGTH - 9];
      var cut := TrimRight(head, '-');
      assert head[0] == stem[0];
      assert LabelChars(cut) && cut[0] == stem[0];
    }
  }

  /** A derived name is a host label, whatever the reference. */
  lemma DerivedIsLabel(prefix: string, model: string, fnv: string -> nat)
    requires prefix == "" || IsLabel(prefix)
    ensures IsLabel(Derived(prefix, model, fnv))
  {
    var raw := Raw(model);
    StemNormal(raw);
    if prefix != "" {
      TrimRightNoop(prefix, '-');
      assert Stem(prefix, raw) == prefix + "-" + Stem("", raw);
    }
    ShortenLabel(Stem(prefix, raw), fnv(raw));
  }

  lemma {:induction false} DashedFixed(s: string, lastDash: bool)
    requires LabelChars(s) && SingleDashes(s)
    requires lastDash && s != "" ==> Alnum(s[0])
    ensures Dashed(s, lastDash) == s
  {
    if s != [] {
      assert forall i {:trigger s[1..][i]} :: 0 <= i < |s[1..]| ==> s[1..][i] == s[i + 1];
      DashedFixed(s[1..], !Alnum(s[0]));
      assert s == [s[0]] + s[1..];
    }
  }

  lemma RawFixed(s: string)
    requires Normal(s)
    ensures Raw(s) == s
  {
    assert !Space(s[0]) && !Space(s[|s| - 1]);
    assert forall i :: 0 <= i < |s| ==> Lower(s[i]) == s[i];
  }

  /** Deriving a name from a derived name changes nothing: the prefix is empty,
      as for InstanceName. */
  lemma DerivedIdempotent(model: string, fnv: string -> nat)
    ensures Derived("", Derived("", model, fnv), fnv) == Derived("", model, fnv)
  {
    var name := Derived("", model, fnv);
    StemNormal(Raw(model));
    ShortenLabel(Stem("", Raw(model)), fnv(Raw(model)));
    assert Normal(name);
    RawFixed(name);
    DashedFixed(name, true);
    TrimRightNoop(name, '-');
  }

  /** A short reference of lower-case letters and digits, a letter first, is its own name, also when
      it is written in capitals or between spaces. */
  lemma PlainIsItself(s: string, model: string, fnv: string -> nat)
    requires 0 < |s| <= 63 && 'a' <= s[0] <= 'z' && forall i :: 0 <= i < |s| ==> 'a' <= s[i] <= 'z' || '0' <= s[i] <= '9'
    requires model == s || (|model| == |s| && forall i :: 0 <= i < |s| ==> model[i] == Capital(s[i]))
    ensures Derived("", model, fnv) == s && Derived("", " " + model + " ", fnv) == s
  {
    PlainRaw(s, model);
    NormalIsItself(s, model, fnv);
    NormalIsItself(s, " " + model + " ", fnv);
  }

  lemma NormalIsItself(s: string, model: string, fnv: string -> nat)
    requires Raw(model) == s && Normal(s) && |s| <= MAX_NAME_LENGTH
    ensures Derived("", model, fnv) == s
  {
    DashedFixed(s, true);
    TrimRightNoop(s, '-');
  }

  lemma PlainRaw(s: string, model: string)
    requires s != "" && forall i :: 0 <= i < |s| ==> 'a' <= s[i] <= 'z' || '0' <= s[i] <= '9'
    requires model == s || (|model| == |s| && forall i :: 0 <= i < |s| ==> model[i] == Capital(s[i]))
    ensures Raw(model) == s && Raw(" " + model + " ") == s
  {
    assert !Space(model[0]) && !Space(model[|model| - 1]);
    Padded(model);
    LoweredIs(s, model);
  }

  lemma LoweredIs(s: string, model: string)
    requires |model| == |s| && forall i :: 0 <= i < |s| ==> Lower(model[i]) == s[i]
    ensures LowerAll(model) == s
  {
  }

  /** Behind a label for a prefix, when the two fit. */
  lemma PrefixedIs(prefix: string, s: string, fnv: string -> nat)
    requires IsLabel(prefix) && |prefix| + 1 + |s| <= 63
    requires |s| > 0 && 'a' <= s[0] <= 'z' && forall i :: 0 <= i < |s| ==> 'a' <= s[i] <= 'z' || '0' <= s[i] <= '9'
    ensures Derived(prefix, s, fnv) == prefix + "-" + s
  {
    PlainRaw(s, s);
    NormalStem(prefix, s);
  }

  lemma NormalStem(prefix: string, s: string)
    requires prefix != "" && prefix[|prefix| - 1] != '-' && Normal(s)
    ensures Stem(prefix, s) == prefix + "-" + s
  {
    DashedFixed(s, true);
    TrimRightNoop(s, '-');
    TrimRightNoop(prefix, '-');
  }

  ghost function Capital(c: char): char { if 'a' <= c <= 'z' then (c - 'a') + 'A' else c }

  lemma Padded(s: string)
    requires s != "" && !Space(s[0]) && !Space(s[|s| - 1])
    ensures TrimSpace(" " + s + " ") == s
  {
    assert (" " + s + " ")[1..] == s + " ";
    assert (s + " ")[..|s|] == s;
    assert TrimSpace(s + " ") == TrimSpace(s);
  }

  /** What a short name keeps of its reference: the words, and nothing else. */
  lemma DerivedWords(model: string, fnv: string -> nat)
    requires 0 < |Join(Words(Raw(model)))| <= MAX_NAME_LENGTH && !Digit(Join(Words(Raw(model)))[0])
    ensures Derived("", model, fnv) == Join(Words(Raw(model)))
  {
    DashedIsWords(Raw(model));
  }

  /** What a name is made of: the words, after "m" where the first begins with a digit, or
      "model" where there are none. */
  function NameWords(words: seq<string>): seq<string> {
    if words == [] then ["model"] else if words[0] != "" && Digit(words[0][0]) then ["m"] + words else words
  }

  /** The words of two references of one name: the same, or apart by what the name adds. */
  predicate SameName(a: seq<string>, b: seq<string>) { a == b || Adds(a, b) || Adds(b, a) }

  predicate Adds(a: seq<string>, b: seq<string>) {
    if a == [] then b == ["model"] else a[0] != "" && Digit(a[0][0]) && b == ["m"] + a
  }

  predicate Word(s: string) { s != "" && forall i :: 0 <= i < |s| ==> Alnum(s[i]) }

  lemma WordsAreWords(raw: string)
    ensures forall w :: w in Words(raw) ==> Word(w)
    decreases |raw|
  {
    if raw != [] {
      if Alnum(raw[0]) { WordsAreWords(raw[Run(raw)..]); } else { WordsAreWords(raw[1..]); }
    }
  }

  lemma JoinDash(words: seq<string>)
    requires forall w :: w in words ==> Word(w)
    ensures '-' in Join(words) <==> |words| > 1
    ensures Join(words) == "" <==> words == []
  {
    assert words != [] ==> Word(words[0]);
    if |words| > 1 { assert Join(words)[|words[0]|] == '-'; }
  }

  lemma {:induction false} JoinInjective(a: seq<string>, b: seq<string>)
    requires (forall w :: w in a ==> Word(w)) && (forall w :: w in b ==> Word(w))
    requires Join(a) == Join(b)
    ensures a == b
  {
    JoinDash(a);
    JoinDash(b);
    if |a| > 1 {
      assert Word(a[0]) && Word(b[0]);
      var s, t := Join(a[1..]), Join(b[1..]);
      assert Join(a) == a[0] + ['-'] + s && Join(b) == b[0] + ['-'] + t;
      CutUnique(a[0], s, b[0], t, '-');
      JoinInjective(a[1..], b[1..]);
      assert a == [a[0]] + a[1..] && b == [b[0]] + b[1..];
    }
  }

  lemma StemIsWords(prefix: string, raw: string)
    ensures Stem(prefix, raw) == Prefixed(prefix, Join(NameWords(Words(raw))))
  {
    DashedIsWords(raw);
    WordsAreWords(raw);
    JoinedName(Words(raw));
  }

  function Prefixed(prefix: string, name: string): string {
    if prefix == "" then name else TrimRight(prefix, '-') + "-" + name
  }

  lemma JoinedName(words: seq<string>)
    requires forall w :: w in words ==> Word(w)
    ensures var word := Join(words);
            Join(NameWords(words)) == if word == "" then "model" else if Digit(word[0]) then "m-" + word else word
  {
    if words != [] {
      assert Word(words[0]) && Join(words)[0] == words[0][0];
      assert (["m"] + words)[1..] == words;
    }
  }

  lemma NameWordsDecide(a: seq<string>, b: seq<string>)
    requires (forall w :: w in a ==> Word(w)) && (forall w :: w in b ==> Word(w))
    ensures NameWords(a) == NameWords(b) <==> SameName(a, b)
  {
    assert a != [] ==> Word(a[0]);
    assert b != [] ==> Word(b[0]);
    assert (["m"] + a)[1..] == a && (["m"] + b)[1..] == b;
    assert (["m"] + a)[0] == "m" && (["m"] + b)[0] == "m";
  }

  /** Two references whose names need no digest have one name exactly when their words are the
      same, but for an "m" before a digit and "model" for no word. */
  lemma DerivedNamesCoincide(prefix: string, x: string, y: string, fnv: string -> nat)
    requires |Stem(prefix, Raw(x))| <= MAX_NAME_LENGTH && |Stem(prefix, Raw(y))| <= MAX_NAME_LENGTH
    ensures Derived(prefix, x, fnv) == Derived(prefix, y, fnv) <==> SameName(Words(Raw(x)), Words(Raw(y)))
  {
    StemIsWords(prefix, Raw(x));
    StemIsWords(prefix, Raw(y));
    WordsAreWords(Raw(x));
    WordsAreWords(Raw(y));
    NamesDecide(prefix, Words(Raw(x)), Words(Raw(y)));
  }

  lemma NamesDecide(prefix: string, a: seq<string>, b: seq<string>)
    requires (forall w :: w in a ==> Word(w)) && (forall w :: w in b ==> Word(w))
    ensures Prefixed(prefix, Join(NameWords(a))) == Prefixed(prefix, Join(NameWords(b))) <==> SameName(a, b)
  {
    NameWordsDecide(a, b);
    PrefixCancels(prefix, Join(NameWords(a)), Join(NameWords(b)));
    NameWordsAreWords(a);
    NameWordsAreWords(b);
    if Join(NameWords(a)) == Join(NameWords(b)) { JoinInjective(NameWords(a), NameWords(b)); }
  }

  lemma NameWordsAreWords(words: seq<string>)
    requires forall w :: w in words ==> Word(w)
    ensures forall w :: w in NameWords(words) ==> Word(w)
  {
    assert Word("m") && Word("model");
  }

  lemma PrefixCancels(prefix: string, a: string, b: string)
    ensures Prefixed(prefix, a) == Prefixed(prefix, b) <==> a == b
  {
    var head := TrimRight(prefix, '-') + "-";
    assert (head + a)[|head|..] == a && (head + b)[|head|..] == b;
  }

  /** A tag and a path of the same words. */
  lemma ColonIsSlash(fnv: string -> nat)
    ensures Derived("", "a:b", fnv) == Derived("", "a/b", fnv) == "a-b"
  {
    var x, y := Raw("a:b"), Raw("a/b");
    assert x == "a:b" && y == "a/b";
    assert Dashed(x, true) == "a-b" by {
      assert x[1..] == ":b" && x[1..][1..] == "b" && Dashed("b", true) == "b";
    }
    assert Dashed(y, true) == "a-b" by {
      assert y[1..] == "/b" && y[1..][1..] == "b" && Dashed("b", true) == "b";
    }
    TrimRightNoop("a-b", '-');
  }

  function Cut(name: string, suffix: string): (r: string)
    requires |suffix| <= MAX_NAME_LENGTH
  {
    TrimRight(if |name| + |suffix| > MAX_NAME_LENGTH then name[..MAX_NAME_LENGTH - |suffix|] else name, '-') + suffix
  }

  /** placeholderSecretName. */
  function PlaceholderSecretName(config: string): string { Cut(config, KEY_SUFFIX) }

  /** suffixed: the backend appended to a taken name. A backend of more than 62
      characters has no place in the limit; the source slices out of range there. */
  function Suffixed(name: string, backend: string): string
    requires |backend| < MAX_NAME_LENGTH
  {
    Cut(name, "-" + backend)
  }

  lemma CutIsLabel(name: string, suffix: string)
    requires IsLabel(name)
    requires 0 < |suffix| < MAX_NAME_LENGTH && LabelChars(suffix) && Alnum(suffix[|suffix| - 1])
    ensures IsLabel(Cut(name, suffix))
  {
    var head := if |name| + |suffix| > MAX_NAME_LENGTH then name[..MAX_NAME_LENGTH - |suffix|] else name;
    assert head[0] == name[0];
  }

  lemma PlaceholderSecretNameIsLabel(config: string)
    requires IsLabel(config)
    ensures IsLabel(PlaceholderSecretName(config))
  {
    CutIsLabel(config, KEY_SUFFIX);
  }

  lemma SuffixedIsLabel(name: string, backend: string)
    requires IsLabel(name) && IsLabel(backend) && |backend| < MAX_NAME_LENGTH - 1
    ensures IsLabel(Suffixed(name, backend))
  {
    CutIsLabel(name, "-" + backend);
  }

  /** The Secret name tells two ModelConfigs apart exactly by the first 55
      characters of their names, trailing dashes aside. */
  lemma SecretNamesCoincide(x: string, y: string)
    ensures PlaceholderSecretName(x) == PlaceholderSecretName(y)
       <==> TrimRight(Head(x), '-') == TrimRight(Head(y), '-')
  {
    var p, q := TrimRight(Head(x), '-'), TrimRight(Head(y), '-');
    assert PlaceholderSecretName(x) == p + KEY_SUFFIX && PlaceholderSecretName(y) == q + KEY_SUFFIX;
    if p + KEY_SUFFIX == q + KEY_SUFFIX {
      assert p == (p + KEY_SUFFIX)[..|p|] && q == (q + KEY_SUFFIX)[..|q|];
    }
  }

  function Head(s: string): string { if |s| > 55 then s[..55] else s }

  lemma SecretNameInjective(x: string, y: string)
    requires |x| <= 55 && |y| <= 55
    requires (x != "" ==> x[|x| - 1] != '-') && (y != "" ==> y[|y| - 1] != '-')
    requires PlaceholderSecretName(x) == PlaceholderSecretName(y)
    ensures x == y
  {
    SecretNamesCoincide(x, y);
    TrimRightNoop(x, '-');
    TrimRightNoop(y, '-');
  }
}
