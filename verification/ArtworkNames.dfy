/** Names of the artwork cache's files: objects are `<key>.<extension>` with a 64-digit hexadecimal
    key, downloads in progress are `.<key>-<nonce>.part`. */
module ArtworkNames {
  import opened Wrappers

  const EXTENSIONS: seq<string> := ["jpg", "png", "webp", "gif", "avif"]

  predicate HexDigit(c: char) {
    '0' <= c <= '9' || 'a' <= c <= 'f' || 'A' <= c <= 'F'
  }

  predicate ValidKey(key: string) {
    |key| == 64 && forall i | 0 <= i < |key| :: HexDigit(key[i])
  }

  function ObjectName(key: string, extension: string): string {
    key + "." + extension
  }

  function TemporaryName(key: string, nonce: string): string {
    "." + key + "-" + nonce + ".part"
  }

  // The position of the last dot.
  function LastDot(name: string): (r: Option<nat>)
    ensures r.Some? ==> r.value < |name| && name[r.value] == '.' && forall i | r.value < i < |name| :: name[i] != '.'
    ensures r.None? ==> '.' !in name
  {
    if name == [] then None
    else if name[|name| - 1] == '.' then Some(|name| - 1)
    else LastDot(name[..|name| - 1])
  }

  function ParseObjectName(name: string): Option<(string, string)> {
    var dot := LastDot(name);
    if dot.None? then None
    else
      var key, extension := name[..dot.value], name[dot.value + 1..];
      if ValidKey(key) && extension in EXTENSIONS then Some((key, extension)) else None
  }

  lemma ExtensionsHaveNoDot(extension: string)
    requires extension in EXTENSIONS
    ensures '.' !in extension
  {
  }

  lemma LastDotIs(name: string, p: nat)
    requires p < |name| && name[p] == '.' && forall i | p < i < |name| :: name[i] != '.'
    ensures LastDot(name) == Some(p)
  {
    hide LastDot;
    assert name[p] in name;
  }

  // The last dot of `a.b` is the one before `b`, if `b` has none.
  lemma LastDotOfJoin(a: string, b: string)
    requires '.' !in b
    ensures LastDot(a + "." + b) == Some(|a|)
  {
    hide LastDot;
    var head, name := a + ".", a + "." + b;
    assert name[..|head|] == head && name[|head|..] == b;
    assert name[|a|] == head[|a|] == '.';
    forall i | |a| < i < |name|
      ensures name[i] != '.'
    {
      assert name[i] == b[i - |head|];
    }
    LastDotIs(name, |a|);
  }

  /** Parsing and naming undo each other: a name parses as a key and extension exactly when they are
      valid and it is the name made from them. */
  lemma ParsingInvertsNaming(name: string, key: string, extension: string)
    ensures ParseObjectName(name) == Some((key, extension)) <==>
              ValidKey(key) && extension in EXTENSIONS && name == ObjectName(key, extension)
  {
    if ValidKey(key) && extension in EXTENSIONS && name == ObjectName(key, extension) {
      ExtensionsHaveNoDot(extension);
      LastDotOfJoin(key, extension);
      assert name[..|key|] == key && name[|key| + 1..] == extension;
    }
    if ParseObjectName(name) == Some((key, extension)) {
      var dot := LastDot(name).value;
      assert name == name[..dot] + "." + name[dot + 1..];
    }
  }

  /** Exactly 64 hexadecimal digits with one of five extensions are an object's name. */
  lemma ObjectNamesAre(key: string, extension: string)
    ensures ParseObjectName(key + "." + extension) == Some((key, extension)) <==>
              && |key| == 64
              && (forall i | 0 <= i < 64 :: '0' <= key[i] <= '9' || 'a' <= key[i] <= 'f' || 'A' <= key[i] <= 'F')
              && extension in {"jpg", "png", "webp", "gif", "avif"}
  {
    ParsingInvertsNaming(key + "." + extension, key, extension);
  }

  /** Different keys never share a file name. */
  lemma NamesAreInjective(key: string, extension: string, key': string, extension': string)
    requires ValidKey(key) && extension in EXTENSIONS && ValidKey(key') && extension' in EXTENSIONS
    requires ObjectName(key, extension) == ObjectName(key', extension')
    ensures key == key' && extension == extension'
  {
    ParsingInvertsNaming(ObjectName(key, extension), key, extension);
    ParsingInvertsNaming(ObjectName(key, extension), key', extension');
  }

  /** The name of a download in progress never parses. */
  lemma TemporaryNeverParses(key: string, nonce: string)
    ensures ParseObjectName(TemporaryName(key, nonce)) == None
  {
    var stem := "." + key + "-" + nonce;
    assert TemporaryName(key, nonce) == stem + "." + "part";
    LastDotOfJoin(stem, "part");
    assert (stem + "." + "part")[|stem| + 1..] == "part";
    assert "part"[0] != EXTENSIONS[0][0] && "part" != EXTENSIONS[1] && "part"[0] != EXTENSIONS[2][0];
    assert "part"[0] != EXTENSIONS[3][0] && "part"[0] != EXTENSIONS[4][0] && "part"[1] != EXTENSIONS[1][1];
  }
}
