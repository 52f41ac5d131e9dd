/** maskSensitiveMetadata: JSON metadata with every secret-looking entry replaced by '***'. */
module Masking {
  /** A property name, or a position in an array. */
  datatype Key = Name(text: string) | Index(position: nat)

  datatype Json =
    | Null
    | Bool(flag: bool)
    | Num(number: real)
    | Str(text: string)
    | Tree(isArray: bool, fields: map<Key, Json>)

  const MASK := Str("***")

  const KEYWORDS := ["secret", "token", "password"]

  /** Lower case, as far as it can produce a letter of a keyword: U+212A is the only character
      outside A-Z whose lower case is one ('k'). */
  function Lower(c: char): char {
    if 'A' <= c <= 'Z' then ((c as int) + 32) as char else if c == '\U{212A}' then 'k' else c
  }

  predicate OccursAt(text: string, keyword: string, at: nat) {
    at + |keyword| <= |text| && text[at..at + |keyword|] == keyword
  }

  /** `text.includes(keyword)`. */
  predicate Contains(text: string, keyword: string) {
    exists at :: 0 <= at <= |text| && OccursAt(text, keyword, at)
  }

  function LowerAll(text: string): string {
    seq(|text|, i requires 0 <= i < |text| => Lower(text[i]))
  }

  predicate IsSensitiveText(text: string) {
    var lower := LowerAll(text);
    exists w :: 0 <= w < |KEYWORDS| && Contains(lower, KEYWORDS[w])
  }

  function Decimal(n: nat): (text: string)
    ensures text != "" && forall i :: 0 <= i < |text| ==> '0' <= text[i] <= '9'
  {
    var digit := [('0' as int + n % 10) as char];
    if n < 10 then digit else Decimal(n / 10) + digit
  }

  /** What `for (const key in …)` yields. */
  function KeyText(key: Key): string {
    match key
    case Name(text) => text
    case Index(position) => Decimal(position)
  }

  predicate IsSensitive(key: Key) {
    IsSensitiveText(KeyText(key))
  }

  /** No array element is masked for its position. */
  lemma IndexIsNotSensitive(position: nat)
    ensures !IsSensitive(Index(position))
  {
    var text := Decimal(position);
    var lower := LowerAll(text);
    forall w | 0 <= w < |KEYWORDS| ensures !Contains(lower, KEYWORDS[w]) {
      assert KEYWORDS[w][0] in {'s', 't', 'p'};
      forall at | 0 <= at <= |lower| ensures !OccursAt(lower, KEYWORDS[w], at) {
        if at + |KEYWORDS[w]| <= |lower| {
          assert lower[at..at + |KEYWORDS[w]|][0] == lower[at];
        }
      }
    }
  }

  function Masked(json: Json): (r: Json)
    ensures json.Tree? ==> r.Tree? && r.isArray == json.isArray && r.fields.Keys == json.fields.Keys
  {
    match json
    case Tree(isArray, fields) =>
      Tree(isArray, map key | key in fields :: if IsSensitive(key) then MASK else Masked(fields[key]))
    case _ => json
  }

  predicate IsFalsy(json: Json) {
    json == Null || json == Bool(false) || json == Num(0.0) || json == Str("")
  }

  /** `json || null` for what is not an object. */
  function MaskedTop(json: Json): Json {
    if IsFalsy(json) then Null else Masked(json)
  }

  // ---- What a secret is, spelt out ----

  /** The letter `small` in either case; the Kelvin sign is a capital k too. */
  predicate Spells(c: char, small: char) {
    c == small || (c as int + 32 == small as int) || (small == 'k' && c == '\U{212A}')
  }

  predicate LooksLike(text: string, word: string) {
    |text| == |word| && forall i :: 0 <= i < |word| ==> Spells(text[i], word[i])
  }

  ghost predicate HasWindow(text: string, word: string) {
    exists pre, mid, post :: text == pre + mid + post && LooksLike(mid, word)
  }

  /** "secret", "token" or "password", in any case, anywhere in the text. */
  ghost predicate NamesSecret(text: string) {
    HasWindow(text, "secret") || HasWindow(text, "token") || HasWindow(text, "password")
  }

  predicate IsWord(word: string) {
    forall i :: 0 <= i < |word| ==> 'a' <= word[i] <= 'z'
  }

  lemma WindowIff(text: string, word: string)
    requires IsWord(word)
    ensures HasWindow(text, word) <==> Contains(LowerAll(text), word)
  {
    var lower := LowerAll(text);
    if HasWindow(text, word) {
      var pre, mid, post :| text == pre + mid + post && LooksLike(mid, word);
      WindowOccurs(pre, mid, post, word);
    }
    if Contains(lower, word) {
      var at :| 0 <= at <= |lower| && OccursAt(lower, word, at);
      var pre, mid, post := text[..at], text[at..at + |word|], text[at + |word|..];
      forall i | 0 <= i < |word| ensures Spells(mid[i], word[i]) {
        assert lower[at..at + |word|][i] == Lower(text[at + i]);
      }
      assert text == pre + mid + post && LooksLike(mid, word);
    }
  }

  lemma WindowOccurs(pre: string, mid: string, post: string, word: string)
    requires IsWord(word) && LooksLike(mid, word)
    ensures Contains(LowerAll(pre + mid + post), word)
  {
    var text := pre + mid + post;
    forall i | 0 <= i < |word| ensures LowerAll(text)[|pre| + i] == word[i] {
      assert text[|pre| + i] == mid[i];
    }
    assert OccursAt(LowerAll(text), word, |pre|);
  }

  lemma SensitiveIff(text: string)
    ensures IsSensitiveText(text) <==> NamesSecret(text)
  {
    WindowIff(text, "secret");
    WindowIff(text, "token");
    WindowIff(text, "password");
    var lower := LowerAll(text);
    assert KEYWORDS[0] == "secret" && KEYWORDS[1] == "token" && KEYWORDS[2] == "password";
    assert IsSensitiveText(text) <==> Contains(lower, KEYWORDS[0]) || Contains(lower, KEYWORDS[1]) || Contains(lower, KEYWORDS[2]);
  }

  /** The entry of a masked document under a name: '***' if the name has "secret", "token" or
      "password" in it, in any case; otherwise the entry it was, masked inside. Array elements are
      always masked inside only. */
  lemma SecretsAreMasked(json: Json, key: Key)
    requires json.Tree? && key in json.fields
    ensures Masked(json).fields[key] ==
            if key.Name? && NamesSecret(key.text) then Str("***") else Masked(json.fields[key])
  {
    match key
    case Name(text) => SensitiveIff(text);
    case Index(position) => IndexIsNotSensitive(position);
  }

  lemma WindowIsSecret(pre: string, mid: string, post: string)
    requires LooksLike(mid, "secret") || LooksLike(mid, "token") || LooksLike(mid, "password")
    ensures NamesSecret(pre + mid + post)
  {}

  lemma ShortNameIsNoSecret(text: string)
    requires |text| < 5
    ensures !NamesSecret(text)
  {
    forall pre: string, mid: string, post: string | text == pre + mid + post ensures |mid| < 5 {}
  }

  /** Two names, and two that are not secrets. */
  lemma SomeNames(value: Json, fields: map<Key, Json>)
    requires fields == map[Name("apiToken") := value, Name("PASSWORD") := value, Name("pass") := value, Index(0) := value]
    ensures var masked := Masked(Tree(false, fields)).fields;
      && masked[Name("apiToken")] == Str("***") && masked[Name("PASSWORD")] == Str("***")
      && masked[Name("pass")] == Masked(value) && masked[Index(0)] == Masked(value)
  {
    var json := Tree(false, fields);
    WindowIsSecret("api", "Token", "");
    assert "api" + "Token" + "" == "apiToken";
    WindowIsSecret("", "PASSWORD", "");
    assert "" + "PASSWORD" + "" == "PASSWORD";
    ShortNameIsNoSecret("pass");
    SecretsAreMasked(json, Name("apiToken"));
    SecretsAreMasked(json, Name("PASSWORD"));
    SecretsAreMasked(json, Name("pass"));
    SecretsAreMasked(json, Index(0));
  }

  // ---- What can be seen in a tree, path by path ----

  type Path = seq<Key>

  datatype View = Absent | Leaf(json: Json) | Branch(isArray: bool, keys: set<Key>)

  function Look(json: Json, path: Path): View {
    if path == [] then
      if json.Tree? then Branch(json.isArray, json.fields.Keys) else Leaf(json)
    else if json.Tree? && path[0] in json.fields then Look(json.fields[path[0]], path[1..])
    else Absent
  }

  predicate Clear(path: Path) {
    forall i :: 0 <= i < |path| ==> !IsSensitive(path[i])
  }

  /** What the masked tree must show: the original on every path without a sensitive key; the
      mask where an entry with such a key stands; nothing below it. */
  function Expected(json: Json, path: Path): View {
    if Clear(path) then Look(json, path)
    else if Clear(path[..|path| - 1]) && Look(json, path).Absent? == false then Leaf(MASK)
    else Absent
  }

  lemma ClearStep(path: Path)
    requires path != []
    ensures Clear(path) <==> !IsSensitive(path[0]) && Clear(path[1..])
  {
    if !IsSensitive(path[0]) && Clear(path[1..]) {
      forall i | 0 <= i < |path| ensures !IsSensitive(path[i]) {
        assert i > 0 ==> path[i] == path[1..][i - 1];
      }
    }
    if Clear(path) {
      assert !IsSensitive(path[0]);
    }
  }

  lemma ExpectedStep(json: Json, path: Path)
    requires json.Tree? && path != [] && path[0] in json.fields && !IsSensitive(path[0])
    ensures Expected(json, path) == Expected(json.fields[path[0]], path[1..])
  {
    ClearStep(path);
    if |path| > 1 {
      ClearStep(path[..|path| - 1]);
      assert path[..|path| - 1][1..] == path[1..][..|path[1..]| - 1];
    }
  }

  lemma {:induction false} MaskedLooksAsExpected(json: Json, path: Path)
    ensures Look(Masked(json), path) == Expected(json, path)
    decreases |path|
  {
    if path != [] {
      if json.Tree? && path[0] in json.fields {
        if IsSensitive(path[0]) {
          if |path| == 1 {
            assert Look(json, path) == Look(json.fields[path[0]], []);
          } else {
            assert IsSensitive(path[..|path| - 1][0]);
          }
        } else {
          MaskedLooksAsExpected(json.fields[path[0]], path[1..]);
          ExpectedStep(json, path);
        }
      }
    }
  }

  ghost predicate LooksSame(a: Json, b: Json) {
    forall path :: Look(a, path) == Look(b, path)
  }

  /** Two trees that show the same on every path are the same tree. */
  lemma {:induction false} LookDetermines(a: Json, b: Json)
    requires LooksSame(a, b)
    ensures a == b
    decreases a
  {
    assert Look(a, []) == Look(b, []);
    if a.Tree? {
      forall key | key in a.fields ensures a.fields[key] == b.fields[key] {
        forall path ensures Look(a.fields[key], path) == Look(b.fields[key], path) {
          assert ([key] + path)[1..] == path;
          assert Look(a, [key] + path) == Look(b, [key] + path);
        }
        LookDetermines(a.fields[key], b.fields[key]);
      }
    }
  }

  /** The masked tree is the one and only tree that shows the original on every path free of
      sensitive keys, '***' at each outermost sensitive key, and nothing else. */
  lemma MaskedIsTheExpectedTree(json: Json, t: Json)
    ensures t == Masked(json) <==> forall path :: Look(t, path) == Expected(json, path)
  {
    forall path ensures Look(Masked(json), path) == Expected(json, path) {
      MaskedLooksAsExpected(json, path);
    }
    if forall path :: Look(t, path) == Expected(json, path) {
      forall path ensures Look(t, path) == Look(Masked(json), path) {
        assert Look(t, path) == Expected(json, path);
      }
      LookDetermines(t, Masked(json));
    }
  }

  lemma {:induction false} PresenceIsInParent(json: Json, path: Path)
    requires path != []
    ensures !Look(json, path).Absent? <==>
            var parent := Look(json, path[..|path| - 1]); parent.Branch? && path[|path| - 1] in parent.keys
  {
    if |path| > 1 {
      if json.Tree? && path[0] in json.fields {
        PresenceIsInParent(json.fields[path[0]], path[1..]);
        assert path[..|path| - 1][1..] == path[1..][..|path[1..]| - 1];
      }
    }
  }

  lemma SameClearLooksSameExpected(a: Json, b: Json, path: Path)
    requires forall p :: Clear(p) ==> Look(a, p) == Look(b, p)
    ensures Expected(a, path) == Expected(b, path)
  {
    if path != [] {
      PresenceIsInParent(a, path);
      PresenceIsInParent(b, path);
    }
  }

  /** Masking hides exactly the secrets: two documents have the same masked form if and only if
      they show the same on every path free of sensitive keys. */
  lemma MaskingHidesExactlyTheSecrets(a: Json, b: Json)
    ensures Masked(a) == Masked(b) <==> forall path :: Clear(path) ==> Look(a, path) == Look(b, path)
  {
    if Masked(a) == Masked(b) {
      forall path | Clear(path) ensures Look(a, path) == Look(b, path) {
        MaskedLooksAsExpected(a, path);
        MaskedLooksAsExpected(b, path);
      }
    }
    if forall path :: Clear(path) ==> Look(a, path) == Look(b, path) {
      forall path ensures Look(Masked(a), path) == Look(Masked(b), path) {
        MaskedLooksAsExpected(a, path);
        MaskedLooksAsExpected(b, path);
        SameClearLooksSameExpected(a, b, path);
      }
      LookDetermines(Masked(a), Masked(b));
    }
  }

  lemma MaskingIsIdempotent(json: Json)
    ensures Masked(Masked(json)) == Masked(json)
    ensures MaskedTop(MaskedTop(json)) == MaskedTop(json)
  {
    forall path | Clear(path) ensures Look(Masked(json), path) == Look(json, path) {
      MaskedLooksAsExpected(json, path);
    }
    MaskingHidesExactlyTheSecrets(Masked(json), json);
  }

  // ---- The function over objects in memory ----

  /** An object or array in memory. */
  class Node {
    var isArray: bool
    var fields: map<Key, Value>

    constructor (isArray: bool, fields: map<Key, Value>)
      ensures this.isArray == isArray && this.fields == fields
    {
      this.isArray, this.fields := isArray, fields;
    }
  }

  datatype Value = Plain(json: Json) | Ref(node: Node)

  /** `v` stands for the document `json`, using only objects of `nodes`; objects may be shared. */
  ghost predicate Represents(v: Value, json: Json, nodes: set<Node>)
    reads nodes
    decreases json
  {
    match v
    case Plain(leaf) => !json.Tree? && leaf == json
    case Ref(node) =>
      && json.Tree?
      && node in nodes
      && node.isArray == json.isArray
      && node.fields.Keys == json.fields.Keys
      && forall key :: key in json.fields ==> Represents(node.fields[key], json.fields[key], nodes)
  }

  lemma {:induction false} MoreNodes(v: Value, json: Json, nodes: set<Node>, more: set<Node>)
    requires Represents(v, json, nodes) && nodes <= more
    ensures Represents(v, json, more)
    decreases json
  {
    if json.Tree? {
      forall key | key in json.fields ensures Represents(v.node.fields[key], json.fields[key], more) {
        MoreNodes(v.node.fields[key], json.fields[key], nodes, more);
      }
    }
  }

  /** The entries of `copy` other than `todo` are masked. */
  ghost predicate Done(copy: map<Key, Value>, json: Json, todo: set<Key>, made: set<Node>)
    requires json.Tree?
    reads made
  {
    && copy.Keys == json.fields.Keys
    && forall key :: key in json.fields && key !in todo ==> Represents(copy[key], Masked(json).fields[key], made)
  }

  lemma DoneKeeps(copy: map<Key, Value>, json: Json, todo: set<Key>, made: set<Node>, more: set<Node>)
    requires json.Tree? && Done(copy, json, todo, made) && made <= more
    ensures Done(copy, json, todo, more)
  {
    forall key | key in json.fields && key !in todo ensures Represents(copy[key], Masked(json).fields[key], more) {
      MoreNodes(copy[key], Masked(json).fields[key], made, more);
    }
  }

  lemma EntryDone(copy: map<Key, Value>, json: Json, todo: set<Key>, key: Key, entry: Value, made: set<Node>,
                  more: set<Node>)
    requires json.Tree? && key in json.fields && Done(copy, json, todo, made) && made <= more
    requires Represents(entry, Masked(json).fields[key], more)
    ensures Done(copy[key := entry], json, todo - {key}, more)
  {
    DoneKeeps(copy, json, todo, made, more);
  }

  lemma Finished(copy: Node, json: Json, made: set<Node>)
    requires json.Tree? && copy.isArray == json.isArray && Done(copy.fields, json, {}, made)
    ensures Represents(Ref(copy), MaskedTop(json), made + {copy})
  {
    DoneKeeps(copy.fields, json, {}, made, made + {copy});
  }

  /** The masked document on the heap, entry by entry. */
  lemma EntriesAreMasked(r: Value, json: Json, made: set<Node>)
    requires json.Tree? && Represents(r, Masked(json), made)
    ensures r.Ref? && r.node.isArray == json.isArray && r.node.fields.Keys == json.fields.Keys
    ensures forall key :: key in json.fields ==>
              if key.Name? && NamesSecret(key.text) then r.node.fields[key] == Plain(Str("***"))
              else Represents(r.node.fields[key], Masked(json.fields[key]), made)
  {
    forall key | key in json.fields
      ensures if key.Name? && NamesSecret(key.text) then r.node.fields[key] == Plain(Str("***"))
              else Represents(r.node.fields[key], Masked(json.fields[key]), made)
    {
      SecretsAreMasked(json, key);
      assert Represents(r.node.fields[key], Masked(json).fields[key], made);
    }
  }

  /** One turn of the loop: the entry is overwritten in the copy. */
  method MaskEntry(copy: Node, key: Key, ghost json: Json, ghost nodes: set<Node>, ghost todo: set<Key>,
                   ghost made: set<Node>)
      returns (ghost more: set<Node>)
    requires json.Tree? && key in json.fields && key in todo
    requires copy !in nodes && copy !in made && Done(copy.fields, json, todo, made)
    requires Represents(copy.fields[key], json.fields[key], nodes)
    modifies copy`fields
    ensures made <= more && fresh(more - made) && copy !in more
    ensures copy.fields.Keys == json.fields.Keys
    ensures forall k :: k in json.fields && k != key ==> copy.fields[k] == old(copy.fields[k])
    ensures Done(copy.fields, json, todo - {key}, more)
    decreases json, 0
  {
    more := made;
    if IsSensitive(key) {
      EntryDone(copy.fields, json, todo, key, Plain(MASK), made, made);
      copy.fields := copy.fields[key := Plain(MASK)];
    } else if copy.fields[key].Ref? {
      var child, childMade := MaskSensitiveMetadata(copy.fields[key], json.fields[key], nodes);
      more := made + childMade;
      MoreNodes(child, Masked(json.fields[key]), childMade, more);
      EntryDone(copy.fields, json, todo, key, child, made, more);
      copy.fields := copy.fields[key := child];
    }
  }

  /** The loop over the keys of the copy, in any order. */
  method MaskEntries(copy: Node, ghost json: Json, ghost nodes: set<Node>) returns (ghost made: set<Node>)
    requires json.Tree? && copy !in nodes && copy.fields.Keys == json.fields.Keys
    requires forall key :: key in json.fields ==> Represents(copy.fields[key], json.fields[key], nodes)
    modifies copy`fields
    ensures fresh(made) && copy !in made && Done(copy.fields, json, {}, made)
    decreases json, 1
  {
    made := {};
    var keys := copy.fields.Keys;
    while keys != {}
      invariant keys <= json.fields.Keys
      invariant fresh(made) && copy !in made
      invariant Done(copy.fields, json, keys, made)
      invariant forall key :: key in keys ==> Represents(copy.fields[key], json.fields[key], nodes)
      decreases keys
    {
      var key :| key in keys;
      made := MaskEntry(copy, key, json, nodes, keys, made);
      keys := keys - {key};
    }
  }

  /** The result is the masked document, built from new objects only; having no `modifies`
      clause, the method leaves every object of the input as it was. */
  method MaskSensitiveMetadata(v: Value, ghost json: Json, ghost nodes: set<Node>)
      returns (r: Value, ghost made: set<Node>)
    requires Represents(v, json, nodes)
    ensures fresh(made) && Represents(r, MaskedTop(json), made)
    ensures !json.Tree? ==>
              r == Plain(if json == Bool(false) || json == Num(0.0) || json == Str("") then Null else json)
    ensures json.Tree? ==> r.Ref? && r.node.isArray == json.isArray && r.node.fields.Keys == json.fields.Keys
    ensures json.Tree? ==> forall key :: key in json.fields ==>
              if key.Name? && NamesSecret(key.text) then r.node.fields[key] == Plain(Str("***"))
              else Represents(r.node.fields[key], Masked(json.fields[key]), made)
    decreases json, 2
  {
    if v.Plain? {
      return Plain(if IsFalsy(v.json) then Null else v.json), {};
    }
    var copy := new Node(v.node.isArray, v.node.fields);
    made := MaskEntries(copy, json, nodes);
    Finished(copy, json, made);
    EntriesAreMasked(Ref(copy), json, made + {copy});
    r, made := Ref(copy), made + {copy};
  }
}
