/** How an upload is named: a random 21-character id, the original file's
    extension, and the public address on the content host. */
module Naming {
  import opened Text

  const NanoIdLength: nat := 21
  /** The 62 characters `generateNanoId` draws from, in the source's order. */
  const Alphabet: string := Uppercase + Lowercase + Digits
  const Uppercase: string := "ABCDEFGHIJKLMNOPQRSTUVWXYZ"
  const Lowercase: string := "abcdefghijklmnopqrstuvwxyz"
  const Digits: string := "0123456789"
  const DefaultExtension: string := "jpg"
  const ContentHost: string := "https://contents.maxstudio.ai/"

  /** `id` is a string `generateNanoId(length)` can return. */
  predicate IsNanoId(id: string, length: nat) {
    |id| == length && forall i :: 0 <= i < |id| ==> id[i] in Alphabet
  }

  /** A value `Math.random()` can return. */
  predicate IsRandomDraw(r: real) {
    0.0 <= r < 1.0
  }

  predicate AreRandomDraws(draws: seq<real>) {
    forall i :: 0 <= i < |draws| ==> IsRandomDraw(draws[i])
  }

  /** `Math.floor(r * chars.length)`: the alphabet position a draw selects. */
  function DrawIndex(r: real): (k: nat)
    requires IsRandomDraw(r)
    ensures k < |Alphabet|
  {
    (r * |Alphabet| as real).Floor
  }

  /** The id built from the given `Math.random()` values, one character per value, in order. */
  function DrawnId(draws: seq<real>): (id: string)
    requires AreRandomDraws(draws)
    ensures IsNanoId(id, |draws|)
    decreases |draws|
  {
    if draws == [] then ""
    else DrawnId(draws[..|draws| - 1]) + [Alphabet[DrawIndex(draws[|draws| - 1])]]
  }

  /** `generateNanoId(length)`, with the successive results of `Math.random()` as `draws`. */
  method GenerateNanoId(length: nat, draws: seq<real>) returns (id: string)
    requires |draws| == length && AreRandomDraws(draws)
    ensures id == DrawnId(draws)
    ensures IsNanoId(id, length)
  {
    id := "";
    for i := 0 to length
      invariant id == DrawnId(draws[..i])
    {
      assert draws[..i + 1][..i] == draws[..i];
      id := id + [Alphabet[DrawIndex(draws[i])]];
    }
    assert draws[..length] == draws;
  }

  /** Every string over the alphabet of the right length can be drawn, so
      `IsNanoId` describes exactly the ids the generator produces. */
  lemma {:induction false} EveryNanoIdIsDrawn(id: string, length: nat)
    requires IsNanoId(id, length)
    ensures exists draws :: AreRandomDraws(draws) && |draws| == length && DrawnId(draws) == id
    decreases length
  {
    if length == 0 {
      assert AreRandomDraws([]) && DrawnId([]) == id;
    } else {
      var prefix := id[..length - 1];
      EveryNanoIdIsDrawn(prefix, length - 1);
      var draws :| AreRandomDraws(draws) && |draws| == length - 1 && DrawnId(draws) == prefix;
      var k :| 0 <= k < |Alphabet| && Alphabet[k] == id[length - 1];
      var r := DrawFor(k);
      DrawnIdSnoc(draws, r);
      LastSplit(id);
    }
  }

  /** One more draw appends the character it selects. */
  lemma DrawnIdSnoc(draws: seq<real>, r: real)
    requires AreRandomDraws(draws) && IsRandomDraw(r)
    ensures AreRandomDraws(draws + [r])
    ensures DrawnId(draws + [r]) == DrawnId(draws) + [Alphabet[DrawIndex(r)]]
  {
    assert (draws + [r])[..|draws|] == draws;
  }

  /** A draw that selects alphabet position `k`. */
  function DrawFor(k: nat): (r: real)
    requires k < |Alphabet|
    ensures IsRandomDraw(r) && DrawIndex(r) == k
  {
    var r := k as real / |Alphabet| as real;
    assert r * |Alphabet| as real == k as real;
    r
  }

  /** `file.name.split('.').pop() || 'jpg'`: the last dot-separated segment
      of the name, or "jpg" when that segment is empty. */
  function Extension(name: string): (ext: string)
    ensures ext != "" && '.' !in ext
  {
    var parts := Split(name, '.');
    SplitPartsLackSeparator(name, '.');
    if parts[|parts| - 1] == "" then DefaultExtension else parts[|parts| - 1]
  }

  /** The stored object's name: `uniqueId + '.' + fileExtension`. */
  function FileName(id: string, name: string): string {
    id + "." + Extension(name)
  }

  /** The address the uploaded file is served from. */
  function PublicUrl(fileName: string): string {
    ContentHost + fileName
  }

  /** The extension is whatever follows the last dot, when that is not empty:
      "photo.png" and "my.photo.png" both give "png". */
  lemma ExtensionAfterLastDot(base: string, ext: string)
    requires ext != "" && '.' !in ext
    ensures Extension(base + "." + ext) == ext
  {
    SplitConcat(base, ext, '.');
    SplitWithoutSeparator(ext, '.');
  }

  /** A name without a dot is its own extension: "photo" gives "photo". */
  lemma ExtensionOfUndottedName(name: string)
    requires name != "" && '.' !in name
    ensures Extension(name) == name
  {
    SplitWithoutSeparator(name, '.');
  }

  /** The default "jpg" is used only when the last segment is empty: the
      empty name, or a name ending in a dot. */
  lemma ExtensionDefault(name: string)
    ensures var parts := Split(name, '.');
            parts[|parts| - 1] == "" <==> (name == "" || name[|name| - 1] == '.')
    ensures name == "" || name[|name| - 1] == '.' ==> Extension(name) == DefaultExtension
  {
    if name != "" && name[|name| - 1] == '.' {
      var base := name[..|name| - 1];
      assert name == base + ['.'] + "";
      SplitConcat(base, "", '.');
    } else if name != "" {
      LastPartNonEmpty(name);
    }
  }

  /** A string that does not end in the separator has a non-empty last part. */
  lemma {:induction false} LastPartNonEmpty(s: string)
    requires s != [] && s[|s| - 1] != '.'
    ensures var parts := Split(s, '.'); parts[|parts| - 1] != ""
    decreases |s|
  {
    if |s| > 1 {
      LastPartNonEmpty(s[1..]);
    }
  }

  /** An id holds no dot, since the alphabet has none. */
  lemma NoDotInNanoId(id: string, length: nat)
    requires IsNanoId(id, length)
    ensures '.' !in id
  {
    assert '.' !in Uppercase;
    assert '.' !in Lowercase;
    assert '.' !in Digits;
  }

  /** The generated file name splits back into the id and the extension:
      it holds exactly one dot, and re-deriving its extension changes nothing. */
  lemma FileNameRoundTrip(id: string, name: string)
    requires IsNanoId(id, NanoIdLength)
    ensures Split(FileName(id, name), '.') == [id, Extension(name)]
    ensures Extension(FileName(id, name)) == Extension(name)
  {
    NoDotInNanoId(id, NanoIdLength);
    var ext := Extension(name);
    assert FileName(id, name) == Join([id, ext], '.');
    SplitJoin([id, ext], '.');
    ExtensionAfterLastDot(id, ext);
  }

  /** Uploading a ".png" file, "photo.png" say, yields a public address
      ending in the id and ".png". */
  lemma PngAddress(id: string, base: string)
    ensures PublicUrl(FileName(id, base + ".png")) == ContentHost + id + ".png"
  {
    assert base + ".png" == base + "." + "png";
    ExtensionAfterLastDot(base, "png");
    assert ContentHost + (id + "." + "png") == ContentHost + id + ".png";
  }
}
