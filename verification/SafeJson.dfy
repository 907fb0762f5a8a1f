/** What the audit log may store: `_safe_value` (app/security/admin_service.py). */
module SafeJson {
  import opened PyText

  /** A Python value handed to the log.  `Other` is any object that is none of the rest, given by its `str()`. */
  datatype Json =
    | Null
    | Flag(flag: bool)
    | Num(number: real)
    | Text(text: string)
    | Array(items: Items)
    | Object(fields: Fields)
    | Other(shown: string)

  datatype Items = NoItems | Item(first: Json, others: Items)
  datatype Fields = NoFields | Field(key: string, value: Json, others: Fields)

  const SECRET_WORDS: seq<string> := ["token", "secret", "password", "cookie", "refresh", "auth_ref", "credential"]

  /** `word in text`. */
  predicate Mentions(text: string, word: string) {
    word <= text || (text != "" && Mentions(text[1..], word))
  }

  /** `any(word in text for word in _SECRET_WORDS)`. */
  predicate MentionsSecret(text: string) {
    exists w :: 0 <= w < |SECRET_WORDS| && Mentions(text, SECRET_WORDS[w])
  }

  predicate IsSecret(key: string) {
    MentionsSecret(Lower(key))
  }

  function SafeValue(v: Json): Json {
    match v
    case Object(fields) => Object(SafeFields(fields))
    case Array(items) => Array(SafeItems(items))
    case Other(shown) => Text(shown)
    case _ => v
  }

  function SafeItems(items: Items): Items {
    match items
    case NoItems => NoItems
    case Item(first, others) => Item(SafeValue(first), SafeItems(others))
  }

  function SafeFields(fields: Fields): Fields {
    match fields
    case NoFields => NoFields
    case Field(key, value, others) =>
      if IsSecret(key) then SafeFields(others) else Field(key, SafeValue(value), SafeFields(others))
  }

  // ---------- an independent reading: no secret name at any depth, nothing opaque ----------

  predicate Clean(v: Json) {
    match v
    case Object(fields) => CleanFields(fields)
    case Array(items) => CleanItems(items)
    case Other(_) => false
    case _ => true
  }

  predicate CleanItems(items: Items) {
    items.Item? ==> Clean(items.first) && CleanItems(items.others)
  }

  predicate CleanFields(fields: Fields) {
    fields.Field? ==> !IsSecret(fields.key) && Clean(fields.value) && CleanFields(fields.others)
  }

  function FieldCount(fields: Fields): nat {
    if fields.NoFields? then 0 else 1 + FieldCount(fields.others)
  }

  /** Whatever is logged carries no secret name at any depth. */
  lemma {:induction false} SafeIsClean(v: Json)
    ensures Clean(SafeValue(v))
  {
    match v
    case Object(fields) => SafeFieldsAreClean(fields);
    case Array(items) => SafeItemsAreClean(items);
    case _ =>
  }

  lemma {:induction false} SafeItemsAreClean(items: Items)
    ensures CleanItems(SafeItems(items))
  {
    if items.Item? {
      SafeIsClean(items.first);
      SafeItemsAreClean(items.others);
    }
  }

  lemma {:induction false} SafeFieldsAreClean(fields: Fields)
    ensures CleanFields(SafeFields(fields))
    ensures FieldCount(SafeFields(fields)) <= FieldCount(fields)
  {
    if fields.Field? {
      SafeIsClean(fields.value);
      SafeFieldsAreClean(fields.others);
    }
  }

  /** A value is logged unaltered exactly when it is clean. */
  lemma {:induction false} CleanIsKept(v: Json)
    ensures SafeValue(v) == v <==> Clean(v)
  {
    match v
    case Object(fields) => CleanFieldsAreKept(fields);
    case Array(items) => CleanItemsAreKept(items);
    case _ =>
  }

  lemma {:induction false} CleanItemsAreKept(items: Items)
    ensures SafeItems(items) == items <==> CleanItems(items)
  {
    if items.Item? {
      CleanIsKept(items.first);
      CleanItemsAreKept(items.others);
    }
  }

  lemma {:induction false} CleanFieldsAreKept(fields: Fields)
    ensures SafeFields(fields) == fields <==> CleanFields(fields)
  {
    if fields.Field? {
      CleanIsKept(fields.value);
      CleanFieldsAreKept(fields.others);
      SafeFieldsAreClean(fields.others);
    }
  }

  /** Sanitising twice is sanitising once. */
  lemma SafeTwice(v: Json)
    ensures SafeValue(SafeValue(v)) == SafeValue(v)
  {
    SafeIsClean(v);
    CleanIsKept(SafeValue(v));
  }

  // ---------- recognising harmless names ----------

  /** A text that mentions a word has all its letters. */
  lemma {:induction false} MentionedLetters(text: string, word: string, c: char)
    ensures Mentions(text, word) && c in word ==> c in text
  {
    if Mentions(text, word) && c in word {
      if word <= text {
        var k :| 0 <= k < |word| && word[k] == c;
        assert text[k] == c;
      } else {
        MentionedLetters(text[1..], word, c);
      }
    }
  }

  /** And it has the word's first letter early enough. */
  lemma {:induction false} MentionedStart(text: string, word: string)
    requires word != ""
    ensures Mentions(text, word) ==> |word| <= |text| && word[0] in text[..|text| - |word| + 1]
  {
    if Mentions(text, word) {
      if word <= text {
        assert text[..|text| - |word| + 1][0] == word[0];
      } else {
        MentionedStart(text[1..], word);
        var head := text[1..][..|text| - |word|];
        var k :| 0 <= k < |head| && head[k] == word[0];
        assert text[..|text| - |word| + 1][k + 1] == word[0];
      }
    }
  }

  /** A text that lacks a letter of every secret word. */
  lemma HarmlessText(text: string)
    requires 'k' !in text && 'w' !in text && 'h' !in text
    requires 'c' !in text || ('d' !in text && !Mentions(text, "secret"))
    ensures !MentionsSecret(text)
  {
    MentionedLetters(text, "token", 'k');
    MentionedLetters(text, "secret", 'c');
    MentionedLetters(text, "password", 'w');
    MentionedLetters(text, "cookie", 'k');
    MentionedLetters(text, "refresh", 'h');
    MentionedLetters(text, "auth_ref", 'h');
    MentionedLetters(text, "credential", 'c');
    MentionedLetters(text, "credential", 'd');
    assert "token"[2] == 'k' && "secret"[2] == 'c' && "password"[4] == 'w' && "cookie"[3] == 'k';
    assert "refresh"[6] == 'h' && "auth_ref"[3] == 'h' && "credential"[0] == 'c' && "credential"[3] == 'd';
  }

  /** A lower-case name is tested as it is. */
  lemma PlainName(name: string)
    requires forall c | c in name :: LowerChar(c) == c
    ensures IsSecret(name) <==> MentionsSecret(name)
  {
    assert forall i | 0 <= i < |name| :: name[i] in name;
    assert Lower(name) == name;
  }

  // ---------- what is dropped, and what is not ----------

  predicate At(text: string, word: string, i: int) {
    0 <= i && i + |word| <= |text| && text[i..i + |word|] == word
  }

  ghost predicate Contains(text: string, word: string) {
    exists i :: At(text, word, i)
  }

  /** A stretch of the rest of a text is one of the text. */
  lemma RestSlice<T>(text: seq<T>, i: nat, n: nat)
    requires 1 + i + n <= |text|
    ensures text[1..][i..i + n] == text[i + 1..i + 1 + n]
  {
  }

  lemma {:induction false} MentionsIsContains(text: string, word: string)
    ensures Mentions(text, word) <==> Contains(text, word)
  {
    if word <= text {
      assert At(text, word, 0);
    } else if text != "" {
      MentionsIsContains(text[1..], word);
      if i :| At(text[1..], word, i) {
        RestSlice(text, i, |word|);
        assert At(text, word, i + 1);
      }
      if i :| At(text, word, i) {
        assert i != 0 by {
          assert text[0..0 + |word|] == text[..|word|];
        }
        RestSlice(text, i - 1, |word|);
        assert At(text[1..], word, i - 1);
      }
    }
  }

  /** The secret names: those that contain, in any letter case, one of seven words. */
  lemma SecretIff(key: string)
    ensures IsSecret(key) <==>
            exists word :: word in {"token", "secret", "password", "cookie", "refresh", "auth_ref", "credential"} &&
                           Contains(Lower(key), word)
  {
    var text := Lower(key);
    forall word: string
      ensures Mentions(text, word) <==> Contains(text, word)
    {
      MentionsIsContains(text, word);
    }
    assert SECRET_WORDS[0] == "token" && SECRET_WORDS[1] == "secret" && SECRET_WORDS[2] == "password";
    assert SECRET_WORDS[3] == "cookie" && SECRET_WORDS[4] == "refresh" && SECRET_WORDS[5] == "auth_ref";
    assert SECRET_WORDS[6] == "credential";
  }

  predicate Holds(fields: Fields, key: string, value: Json) {
    fields.Field? && ((fields.key == key && fields.value == value) || Holds(fields.others, key, value))
  }

  predicate Listed(items: Items, n: nat, value: Json) {
    items.Item? && if n == 0 then items.first == value else Listed(items.others, n - 1, value)
  }

  /** A field whose name is no secret is logged, with its value sanitised, and no other field is. */
  lemma {:induction false} FieldKept(fields: Fields, key: string, v: Json)
    requires Holds(fields, key, v) && !IsSecret(key)
    ensures Holds(SafeFields(fields), key, SafeValue(v))
  {
    if !(fields.key == key && fields.value == v) {
      FieldKept(fields.others, key, v);
    }
  }

  lemma {:induction false} FieldWasThere(fields: Fields, key: string, value: Json) returns (v: Json)
    requires Holds(SafeFields(fields), key, value)
    ensures !IsSecret(key) && Holds(fields, key, v) && value == SafeValue(v)
  {
    if !IsSecret(fields.key) && fields.key == key && SafeValue(fields.value) == value {
      v := fields.value;
    } else {
      v := FieldWasThere(fields.others, key, value);
    }
  }

  function ItemCount(items: Items): nat {
    if items.NoItems? then 0 else 1 + ItemCount(items.others)
  }

  /** Every item of a list is logged in its place, sanitised. */
  lemma {:induction false} ItemsKept(items: Items, n: nat, v: Json)
    ensures Listed(items, n, v) ==> Listed(SafeItems(items), n, SafeValue(v))
    ensures ItemCount(SafeItems(items)) == ItemCount(items)
  {
    if items.Item? {
      ItemsKept(items.others, if n == 0 then 0 else n - 1, v);
    }
  }

  /** Numbers, texts, flags and null are logged as they are, other objects as their text. */
  lemma ScalarsKept(v: Json)
    ensures v.Null? || v.Flag? || v.Num? || v.Text? ==> SafeValue(v) == v
    ensures v.Other? ==> SafeValue(v) == Text(v.shown)
    ensures v.Object? ==> SafeValue(v).Object?
    ensures v.Array? ==> SafeValue(v).Array?
  {
  }
}
