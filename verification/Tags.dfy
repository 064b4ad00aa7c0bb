/** The tag section of a line: keys and escaped values, as the "Escaping values"
  * section of the IRCv3 message-tags specification lays them out. */
module Tags {
  import opened Wrappers

  const TAGS_SIZE_LIMIT := 8191

  // A tag as it is read; an empty value is no value.
  datatype Tag = Tag(key: string, value: Option<string>)

  // -------------------------------------------------------------- escaping

  function Escape(c: char): string {
    if c == ';' then "\\:"
    else if c == ' ' then "\\s"
    else if c == '\\' then "\\\\"
    else if c == '\r' then "\\r"
    else if c == '\n' then "\\n"
    else [c]
  }

  // The character a backslash and c stand for.
  function Unescape(c: char): char {
    if c == ':' then ';'
    else if c == 's' then ' '
    else if c == '\\' then '\\'
    else if c == 'r' then '\r'
    else if c == 'n' then '\n'
    else c
  }

  function EscapedFrom(v: string, i: nat): string
    requires i <= |v|
    decreases |v| - i
  {
    if i == |v| then "" else Escape(v[i]) + EscapedFrom(v, i + 1)
  }

  // A tag as it is written; a value that is none has no equals sign.
  function TagText(t: Tag): string {
    t.key + if t.value.Some? then "=" + EscapedFrom(t.value.value, 0) else ""
  }

  function TagsText(ts: seq<Tag>, i: nat): string
    requires i < |ts|
    decreases |ts| - i
  {
    TagText(ts[i]) + if i + 1 == |ts| then " " else ";" + TagsText(ts, i + 1)
  }

  // --------------------------------------------------------------- reading

  // The tags read so far, and the parts of the next one.
  datatype Reading = Reading(tags: seq<Tag>, key: string, value: string, inKey: bool)
  {
    // The tag is finished.
    function Next(): Reading {
      Reading(tags + [Tag(key, if value == "" then None else Some(value))], "", "", true)
    }

    function Extended(c: char): Reading {
      if inKey then this.(key := key + [c]) else this.(value := value + [c])
    }
  }

  const START := Reading([], "", "", true)

  // The tags from s[p..] on, and where they end.  A section that ends in an escape
  // is not one the reader is made for.
  function ReadTags(s: string, p: nat, r: Reading): Option<seq<Tag>>
    requires p <= |s|
    decreases |s| - p
  {
    if p == |s| || p >= TAGS_SIZE_LIMIT then None
    else if s[p] == ' ' then Some(r.Next().tags)
    else if s[p] == ';' then ReadTags(s, p + 1, r.Next())
    else if s[p] == '=' && r.inKey then ReadTags(s, p + 1, r.(inKey := false))
    else if s[p] == '\\' && !r.inKey then
      if p + 1 == |s| then None else ReadTags(s, p + 2, r.Extended(Unescape(s[p + 1])))
    else ReadTags(s, p + 1, r.Extended(s[p]))
  }

  // A section whose first blank ends it: no escape hides a blank or a semicolon.
  predicate Sound(s: string, p: nat, inKey: bool)
    requires p <= |s|
    decreases |s| - p
  {
    if p == |s| then false
    else if s[p] == ' ' then true
    else if s[p] == ';' then Sound(s, p + 1, true)
    else if s[p] == '=' && inKey then Sound(s, p + 1, false)
    else if s[p] == '\\' && !inKey then
      p + 1 < |s| && s[p + 1] != ';' && s[p + 1] != ' ' && Sound(s, p + 2, inKey)
    else Sound(s, p + 1, inKey)
  }

  // The semicolons before the first blank.
  function Semicolons(s: string, p: nat): nat
    requires p <= |s|
    decreases |s| - p
  {
    if p == |s| || s[p] == ' ' then 0
    else (if s[p] == ';' then 1 else 0) + Semicolons(s, p + 1)
  }

  /** What a backslash in a value stands for, with the character behind it. */
  lemma {:induction false} BackslashRead(s: string, p: nat, r: Reading)
    requires !r.inKey && p + 1 < |s| && p < TAGS_SIZE_LIMIT && s[p] == '\\'
    ensures s[p + 1] == ':' ==> ReadTags(s, p, r) == ReadTags(s, p + 2, r.(value := r.value + ";"))
    ensures s[p + 1] == 's' ==> ReadTags(s, p, r) == ReadTags(s, p + 2, r.(value := r.value + " "))
    ensures s[p + 1] == '\\' ==> ReadTags(s, p, r) == ReadTags(s, p + 2, r.(value := r.value + "\\"))
    ensures s[p + 1] == 'r' ==> ReadTags(s, p, r) == ReadTags(s, p + 2, r.(value := r.value + "\r"))
    ensures s[p + 1] == 'n' ==> ReadTags(s, p, r) == ReadTags(s, p + 2, r.(value := r.value + "\n"))
    ensures s[p + 1] !in ":s\\rn" ==> ReadTags(s, p, r) == ReadTags(s, p + 2, r.(value := r.value + [s[p + 1]]))
  {
  }

  /** As many tags are read as were counted to make room for them. */
  lemma {:induction false} CountedTagsAreFilled(s: string, p: nat, r: Reading)
    requires p <= |s| && Sound(s, p, r.inKey)
    ensures var t := ReadTags(s, p, r); t.Some? ==> |t.value| == |r.tags| + Semicolons(s, p) + 1
    decreases |s| - p
  {
    if s[p] != ' ' && p < TAGS_SIZE_LIMIT {
      if s[p] == '\\' && !r.inKey {
        CountedTagsAreFilled(s, p + 2, r.Extended(Unescape(s[p + 1])));
      } else {
        CountedTagsAreFilled(s, p + 1,
          if s[p] == ';' then r.Next() else if s[p] == '=' && r.inKey then r.(inKey := false) else r.Extended(s[p]));
      }
    }
  }

  // ----------------------------------------------------------- round trip

  // t stands in s from p on.
  predicate Spells(s: string, p: nat, t: string) {
    p + |t| <= |s| && forall j | 0 <= j < |t| :: s[p + j] == t[j]
  }

  lemma SpellsBoth(s: string, p: nat, a: string, b: string)
    requires Spells(s, p, a + b)
    ensures Spells(s, p, a) && Spells(s, p + |a|, b)
  {
    forall j | 0 <= j < |a| ensures s[p + j] == a[j] {
      assert (a + b)[j] == a[j];
    }
    forall j | 0 <= j < |b| ensures s[p + |a| + j] == b[j] {
      assert (a + b)[|a| + j] == b[j];
    }
  }

  predicate PlainKey(k: string) {
    forall c <- k :: c != ';' && c != ' ' && c != '='
  }

  // What comes back of a tag.
  function Normal(t: Tag): Tag {
    if t.value == Some("") then Tag(t.key, None) else t
  }

  // Reading at p with r comes to q with t.
  ghost predicate Leads(s: string, p: nat, r: Reading, q: nat, t: Reading) {
    p <= |s| && q <= |s| && ReadTags(s, p, r) == ReadTags(s, q, t) && Sound(s, p, r.inKey) == Sound(s, q, t.inKey)
  }

  lemma {:induction false} KeyRead(s: string, p: nat, k: string, i: nat, r: Reading)
    requires i <= |k| && p + |k| <= |s| && p + |k| < TAGS_SIZE_LIMIT && r.inKey && PlainKey(k) && Spells(s, p, k)
    ensures ReadTags(s, p + i, r) == ReadTags(s, p + |k|, r.(key := r.key + k[i..]))
    ensures Sound(s, p + i, true) == Sound(s, p + |k|, true)
    decreases |k| - i
  {
    if i == |k| {
      assert r.key + k[i..] == r.key;
    } else {
      assert s[p + i] == k[i] && k[i] in k;
      KeyRead(s, p, k, i + 1, r.Extended(k[i]));
      assert r.key + k[i..] == r.key + [k[i]] + k[i + 1..];
    }
  }

  // One character of a value.
  lemma {:induction false} CharRead(s: string, p: nat, c: char, r: Reading)
    requires !r.inKey && Spells(s, p, Escape(c)) && p + |Escape(c)| < TAGS_SIZE_LIMIT
    ensures Leads(s, p, r, p + |Escape(c)|, r.Extended(c))
  {
    assert s[p + 0] == Escape(c)[0];
    if |Escape(c)| == 2 {
      assert s[p + 1] == Escape(c)[1];
    }
  }

  lemma {:induction false} ValueRead(s: string, p: nat, v: string, i: nat, r: Reading)
    requires !r.inKey && i <= |v| && r.value == v[..i]
    requires Spells(s, p, EscapedFrom(v, i)) && p + |EscapedFrom(v, i)| < TAGS_SIZE_LIMIT
    ensures Leads(s, p, r, p + |EscapedFrom(v, i)|, r.(value := v))
    decreases |v| - i
  {
    if i == |v| {
      assert v[..i] == v;
    } else {
      NextCharRead(s, p, v, i, r);
      ValueRead(s, p + |Escape(v[i])|, v, i + 1, r.(value := v[..i + 1]));
    }
  }

  lemma {:induction false} NextCharRead(s: string, p: nat, v: string, i: nat, r: Reading)
    requires !r.inKey && i < |v| && r.value == v[..i]
    requires Spells(s, p, EscapedFrom(v, i)) && p + |EscapedFrom(v, i)| < TAGS_SIZE_LIMIT
    ensures var q := p + |Escape(v[i])|;
      && Spells(s, q, EscapedFrom(v, i + 1)) && q + |EscapedFrom(v, i + 1)| == p + |EscapedFrom(v, i)|
      && Leads(s, p, r, q, r.(value := v[..i + 1]))
  {
    SpellsBoth(s, p, Escape(v[i]), EscapedFrom(v, i + 1));
    CharRead(s, p, v[i], r);
    assert v[..i + 1] == v[..i] + [v[i]];
  }

  // One tag, up to the blank or semicolon behind it.
  lemma {:induction false} TagRead(s: string, p: nat, t: Tag, tags: seq<Tag>) returns (r: Reading)
    requires PlainKey(t.key) && Spells(s, p, TagText(t)) && p + |TagText(t)| < TAGS_SIZE_LIMIT
    ensures Leads(s, p, Reading(tags, "", "", true), p + |TagText(t)|, r)
    ensures r.Next() == Reading(tags + [Normal(t)], "", "", true)
  {
    hide ReadTags, Sound, EscapedFrom, PlainKey;
    var k := t.key;
    r := Reading(tags, k, "", true);
    SpellsBoth(s, p, k, if t.value.Some? then "=" + EscapedFrom(t.value.value, 0) else "");
    KeyRead(s, p, k, 0, Reading(tags, "", "", true));
    assert "" + k[0..] == k;
    if t.value.Some? {
      r := ValueOfTagRead(s, p + |k|, t.value.value, r);
    }
  }

  lemma {:induction false} ValueOfTagRead(s: string, p: nat, v: string, r: Reading) returns (q: Reading)
    requires r.inKey && r.value == "" && Spells(s, p, "=" + EscapedFrom(v, 0))
    requires p + 1 + |EscapedFrom(v, 0)| < TAGS_SIZE_LIMIT
    ensures q == Reading(r.tags, r.key, v, false)
    ensures Leads(s, p, r, p + 1 + |EscapedFrom(v, 0)|, q)
  {
    q := Reading(r.tags, r.key, v, false);
    SpellsBoth(s, p, "=", EscapedFrom(v, 0));
    assert s[p + 0] == "="[0];
    ValueRead(s, p + 1, v, 0, r.(inKey := false));
  }

  function Normals(ts: seq<Tag>, i: nat): seq<Tag>
    requires i <= |ts|
    decreases |ts| - i
  {
    if i == |ts| then [] else [Normal(ts[i])] + Normals(ts, i + 1)
  }

  // The tags from s[p..] on come back.
  ghost predicate ReadsAll(s: string, p: nat, tags: seq<Tag>, more: seq<Tag>) {
    p <= |s| && ReadTags(s, p, Reading(tags, "", "", true)) == Some(tags + more) && Sound(s, p, true)
  }

  lemma {:induction false} TagsRead(s: string, p: nat, ts: seq<Tag>, i: nat, tags: seq<Tag>)
    requires i < |ts| && forall t <- ts :: PlainKey(t.key)
    requires Spells(s, p, TagsText(ts, i)) && p + |TagsText(ts, i)| <= TAGS_SIZE_LIMIT
    ensures ReadsAll(s, p, tags, Normals(ts, i))
    decreases |ts| - i
  {
    assert ts[i] in ts;
    var q := p + |TagText(ts[i])|;
    TagParts(s, p, ts, i);
    var r := TagRead(s, p, ts[i], tags);
    if i + 1 == |ts| {
      LastTag(s, p, q, tags, Normal(ts[i]), r);
    } else {
      TagsRead(s, q + 1, ts, i + 1, tags + [Normal(ts[i])]);
      MoreTags(s, p, q, tags, Normal(ts[i]), Normals(ts, i + 1), r);
    }
  }

  lemma {:induction false} TagParts(s: string, p: nat, ts: seq<Tag>, i: nat)
    requires i < |ts| && Spells(s, p, TagsText(ts, i))
    ensures var q := p + |TagText(ts[i])|;
      && Spells(s, p, TagText(ts[i])) && Spells(s, q, if i + 1 == |ts| then " " else ";")
      && q + 1 <= p + |TagsText(ts, i)|
      && (i + 1 < |ts| ==>
            Spells(s, q + 1, TagsText(ts, i + 1)) && q + 1 + |TagsText(ts, i + 1)| == p + |TagsText(ts, i)|)
  {
    var text := TagText(ts[i]);
    if i + 1 == |ts| {
      SpellsBoth(s, p, text, " ");
    } else {
      SpellsBoth(s, p, text, ";" + TagsText(ts, i + 1));
      SpellsBoth(s, p + |text|, ";", TagsText(ts, i + 1));
    }
  }

  lemma {:induction false} LastTag(s: string, p: nat, q: nat, tags: seq<Tag>, t: Tag, r: Reading)
    requires q < TAGS_SIZE_LIMIT && Spells(s, q, " ")
    requires Leads(s, p, Reading(tags, "", "", true), q, r) && r.Next() == Reading(tags + [t], "", "", true)
    ensures ReadsAll(s, p, tags, [t] + [])
  {
    assert s[q + 0] == " "[0];
    assert [t] + [] == [t];
  }

  lemma {:induction false} MoreTags(s: string, p: nat, q: nat, tags: seq<Tag>, t: Tag, more: seq<Tag>, r: Reading)
    requires q < TAGS_SIZE_LIMIT && Spells(s, q, ";")
    requires Leads(s, p, Reading(tags, "", "", true), q, r) && r.Next() == Reading(tags + [t], "", "", true)
    requires ReadsAll(s, q + 1, tags + [t], more)
    ensures ReadsAll(s, p, tags, [t] + more)
  {
    assert s[q + 0] == ";"[0];
    assert tags + ([t] + more) == tags + [t] + more;
  }

  /** Reading undoes writing, up to empty values, and the section is sound. */
  lemma {:induction false} TagsComeBack(ts: seq<Tag>, line: string)
    requires ts != [] && (forall t <- ts :: PlainKey(t.key)) && |TagsText(ts, 0)| <= TAGS_SIZE_LIMIT
    ensures ReadTags(TagsText(ts, 0) + line, 0, START) == Some(Normals(ts, 0))
    ensures Sound(TagsText(ts, 0) + line, 0, true)
  {
    TagsRead(TagsText(ts, 0) + line, 0, ts, 0, []);
    assert [] + Normals(ts, 0) == Normals(ts, 0);
  }

  // The blank that ends the section is its first.
  lemma {:induction false} NoBlankInValue(v: string, i: nat)
    requires i <= |v|
    ensures forall c <- EscapedFrom(v, i) :: c != ' '
    decreases |v| - i
  {
    if i < |v| {
      NoBlankInValue(v, i + 1);
      assert forall c <- Escape(v[i]) :: c != ' ';
    }
  }

  lemma {:induction false} NoBlankInTag(t: Tag)
    requires PlainKey(t.key)
    ensures forall c <- TagText(t) :: c != ' '
  {
    if t.value.Some? {
      NoBlankInValue(t.value.value, 0);
    }
  }

  lemma {:induction false} OneBlank(ts: seq<Tag>, i: nat)
    requires i < |ts| && forall t <- ts :: PlainKey(t.key)
    ensures var s := TagsText(ts, i);
      s != "" && s[|s| - 1] == ' ' && forall j | 0 <= j < |s| - 1 :: s[j] != ' '
    decreases |ts| - i
  {
    assert ts[i] in ts;
    NoBlankInTag(ts[i]);
    if i + 1 < |ts| {
      OneBlank(ts, i + 1);
      BlankBehind(TagText(ts[i]) + ";", TagsText(ts, i + 1));
      assert TagText(ts[i]) + (";" + TagsText(ts, i + 1)) == TagText(ts[i]) + ";" + TagsText(ts, i + 1);
    } else {
      BlankBehind(TagText(ts[i]), " ");
    }
  }

  lemma BlankBehind(a: string, b: string)
    requires (forall c <- a :: c != ' ') && b != "" && b[|b| - 1] == ' ' && forall j | 0 <= j < |b| - 1 :: b[j] != ' '
    ensures var s := a + b; s != "" && s[|s| - 1] == ' ' && forall j | 0 <= j < |s| - 1 :: s[j] != ' '
  {
    var s := a + b;
    forall j | 0 <= j < |s| - 1 ensures s[j] != ' ' {
      if j < |a| {
        assert s[j] == a[j] && a[j] in a;
      } else {
        assert s[j] == b[j - |a|];
      }
    }
  }

  // ------------------------------------------------------------ the reader

  /** The two scratch buffers and the array of tags that was made for as many as
    * were counted. */
  class TagReader {
    const key: array<char>
    const value: array<char>
    const tags: array<Tag>
    var keyLen: nat
    var valueLen: nat
    var count: nat
    var inKey: bool

    predicate Valid()
      reads this
    {
      && key.Length == TAGS_SIZE_LIMIT && value.Length == TAGS_SIZE_LIMIT && key != value
      && keyLen <= key.Length && valueLen <= value.Length && count <= tags.Length
    }

    function Contents(): Reading
      requires Valid()
      reads this, key, value, tags
    {
      Reading(tags[..count], key[..keyLen], value[..valueLen], inKey)
    }

    constructor (ntags: nat)
      ensures Valid() && fresh(key) && fresh(value) && fresh(tags)
      ensures tags.Length == ntags && keyLen == valueLen == count == 0 && Contents() == START
    {
      key := new char[TAGS_SIZE_LIMIT](_ => '\0');
      value := new char[TAGS_SIZE_LIMIT](_ => '\0');
      tags := new Tag[ntags](_ => Tag("", None));
      keyLen, valueLen, count, inKey := 0, 0, 0, true;
    }

    method Put(c: char)
      requires Valid() && keyLen < TAGS_SIZE_LIMIT && valueLen < TAGS_SIZE_LIMIT
      modifies this`keyLen, this`valueLen, key, value
      ensures Valid() && Contents() == old(Contents()).Extended(c)
      ensures keyLen + valueLen == old(keyLen + valueLen) + 1
    {
      if inKey {
        key[keyLen] := c;
        keyLen := keyLen + 1;
        assert key[..keyLen] == old(key[..keyLen]) + [c];
      } else {
        value[valueLen] := c;
        valueLen := valueLen + 1;
        assert value[..valueLen] == old(value[..valueLen]) + [c];
      }
    }

    method Finish()
      requires Valid() && keyLen < TAGS_SIZE_LIMIT && valueLen < TAGS_SIZE_LIMIT && count < tags.Length
      modifies this, key, value, tags
      ensures Valid() && Contents() == old(Contents()).Next()
      ensures keyLen == valueLen == 0 && count == old(count) + 1
    {
      key[keyLen] := '\0';
      value[valueLen] := '\0';
      tags[count] := Tag(key[..keyLen], if valueLen == 0 then None else Some(value[..valueLen]));
      count := count + 1;
      keyLen, valueLen, inKey := 0, 0, true;
    }

    // What is true of the reader before it looks at s[p].
    ghost predicate Ready(s: string, p: nat)
      reads this, key, value, tags
    {
      && Valid() && p <= |s| && keyLen + valueLen <= p
      && Sound(s, p, inKey) && count + Semicolons(s, p) + 1 == tags.Length
      && ReadTags(s, p, Contents()) == ReadTags(s, 0, START)
    }

    // A character of a key or a value, or an equals sign.
    method Character(s: string, p: nat) returns (next: nat)
      requires Ready(s, p) && p < TAGS_SIZE_LIMIT && s[p] != ' ' && s[p] != ';'
      modifies this`keyLen, this`valueLen, this`inKey, key, value
      ensures p < next && Ready(s, next)
    {
      next := p + 1;
      if s[p] == '=' && inKey {
        inKey := false;
      } else if s[p] == '\\' && !inKey {
        assert Semicolons(s, p) == Semicolons(s, p + 1) == Semicolons(s, p + 2);
        Put(Unescape(s[next]));
        next := p + 2;
      } else {
        Put(s[p]);
      }
    }
  }

  method CountTags(s: string) returns (ntags: nat)
    requires Sound(s, 0, true)
    ensures ntags == Semicolons(s, 0) + 1
  {
    SoundHasBlank(s, 0, true);
    ntags := 1;
    var p: nat := 0;
    while s[p] != ' '
      invariant p < |s| && ntags + Semicolons(s, p) == Semicolons(s, 0) + 1
      invariant exists q :: p <= q < |s| && s[q] == ' '
      decreases |s| - p
    {
      if s[p] == ';' {
        ntags := ntags + 1;
      }
      p := p + 1;
    }
  }

  lemma {:induction false} SoundHasBlank(s: string, p: nat, inKey: bool)
    requires p <= |s| && Sound(s, p, inKey)
    ensures exists q :: p <= q < |s| && s[q] == ' '
    decreases |s| - p
  {
    if s[p] != ' ' {
      if s[p] == ';' {
        SoundHasBlank(s, p + 1, true);
      } else if s[p] == '=' && inKey {
        SoundHasBlank(s, p + 1, false);
      } else if s[p] == '\\' && !inKey {
        SoundHasBlank(s, p + 2, inKey);
      } else {
        SoundHasBlank(s, p + 1, inKey);
      }
    }
  }

  /** Reads the tags of a sound section; neither the scratch buffers nor the array
    * of tags overflow. */
  method ReadSection(s: string) returns (r: Option<seq<Tag>>)
    requires Sound(s, 0, true)
    ensures r == ReadTags(s, 0, START)
  {
    var ntags := CountTags(s);
    var reader := new TagReader(ntags);
    var p: nat := 0;
    while true
      invariant reader.Ready(s, p)
      invariant fresh(reader) && fresh(reader.key) && fresh(reader.value) && fresh(reader.tags)
      decreases |s| - p
    {
      if p >= TAGS_SIZE_LIMIT {
        return None;
      }
      if s[p] == ';' || s[p] == ' ' {
        reader.Finish();
        if s[p] == ' ' {
          return Some(reader.tags[..reader.count]);
        }
        p := p + 1;
      } else {
        p := reader.Character(s, p);
      }
    }
  }
}
