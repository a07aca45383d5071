/**
  pathFriendlyHash: the cache key of a source URL. It is the MD5 digest of
  the URL (RFC 1321) in unpadded base64url, a '.', and the URL's last
  '.'-separated segment. The digest function itself is not modelled: it is
  passed in as `md5`, any function from a string to 16 bytes.
*/
module CacheKey {
  import opened GoStd
  import opened Base64Url

  /** A 16-byte MD5 digest. */
  type Digest = d: seq<Byte> | |d| == 16 witness [0, 0, 0, 0, 0, 0, 0, 0, 0, 0, 0, 0, 0, 0, 0, 0]

  /** strings.Split(s, ".")[len-1]: the text after the last '.', or all of
      `s` when it has none. It is not lower-cased. It is the longest suffix of
      `s` without a '.', so it is preceded by a '.' unless it is all of `s`. */
  function Extension(s: string): (e: string)
    ensures '.' !in e && EndsWith(s, e) && (e == s || EndsWith(s, "." + e))
  {
    var parts := Split(s, '.');
    var e := parts[|parts| - 1];
    LastPiece(s, '.');
    if |e| == |s| then
      assert s[0..] == s;
      e
    else
      var dot := |s| - |e| - 1;
      assert s[dot..] == [s[dot]] + s[dot + 1..];
      e
  }

  /** base64.URLEncoding.EncodeToString of the digest with the trailing '='
      trimmed: the unpadded encoding, 22 characters of `A-Z a-z 0-9 - _`, so
      never a '/', '+', '=' or '.'. */
  function HashPart(d: Digest): (h: string)
    ensures h == EncodeUnpadded(d)
    ensures |h| == 22
    ensures forall i :: 0 <= i < 22 ==> IsUrlSafe(h[i])
    ensures '/' !in h && '+' !in h && '=' !in h && '.' !in h
  {
    var h := TrimRight(Encode(d), '=');
    TrimmedEncoding(d);
    assert forall c :: c in h ==> IsUrlSafe(c);
    h
  }

  /** The key: 22 hash characters, a '.', and the extension, so it is 23
      characters longer than the extension and ends in '.' followed by it. */
  function PathFriendlyHash(md5: string -> Digest, s: string): (key: string)
    ensures |key| == 23 + |Extension(s)|
    ensures EndsWith(key, "." + Extension(s))
  {
    var tail := "." + Extension(s);
    EndsWithAppended(HashPart(md5(s)), tail);
    HashPart(md5(s)) + tail
  }

  /** The key is the hash part, then '.', then the extension. */
  lemma KeyLayout(md5: string -> Digest, s: string)
    ensures var key := PathFriendlyHash(md5, s);
      && key[..22] == HashPart(md5(s))
      && key[22] == '.'
      && key[23..] == Extension(s)
  {
    var h, tail := HashPart(md5(s)), "." + Extension(s);
    assert (h + tail)[..22] == h;
    assert (h + tail)[23..] == tail[1..];
  }

  /** A URL ending in '.' and a dot-free word has that word as its extension. */
  lemma ExtensionOfSuffix(s: string, word: string)
    requires '.' !in word && EndsWith(s, "." + word)
    ensures Extension(s) == word
  {
    var prefix := s[..|s| - |word| - 1];
    assert s == prefix + ['.'] + word;
    SplitConcat(prefix, word, '.');
    SplitWithoutSeparator(word, '.');
  }

  /** Distinct digests give distinct hash parts. */
  lemma HashPartInjective(d1: Digest, d2: Digest)
    requires HashPart(d1) == HashPart(d2)
    ensures d1 == d2
  {
    DecodeEncode(d1);
    DecodeEncode(d2);
  }

  /** Equal keys come from equal digests and equal extensions: two URLs share
      a cache file only through an MD5 collision. */
  lemma KeyInjective(md5: string -> Digest, s1: string, s2: string)
    requires PathFriendlyHash(md5, s1) == PathFriendlyHash(md5, s2)
    ensures md5(s1) == md5(s2) && Extension(s1) == Extension(s2)
  {
    KeyLayout(md5, s1);
    KeyLayout(md5, s2);
    HashPartInjective(md5(s1), md5(s2));
  }

  /** A URL ending in "." + word keys to the hash part, '.', and that same
      word, letter case unchanged. */
  lemma KeyKeepsExtension(md5: string -> Digest, s: string, word: string)
    requires '.' !in word && EndsWith(s, "." + word)
    ensures PathFriendlyHash(md5, s) == HashPart(md5(s)) + "." + word
    ensures EndsWith(PathFriendlyHash(md5, s), "." + word)
  {
    ExtensionOfSuffix(s, word);
    var key := PathFriendlyHash(md5, s);
    assert key == HashPart(md5(s)) + ("." + word);
  }

  /** A character that is not in the hash alphabet nor '.' can only be in the
      key if it is in the URL's extension. */
  lemma KeyCharacters(md5: string -> Digest, s: string, c: char)
    requires c != '.' && !IsUrlSafe(c)
    ensures c in PathFriendlyHash(md5, s) <==> c in Extension(s)
  {
    var h, e := HashPart(md5(s)), Extension(s);
    assert PathFriendlyHash(md5, s) == h + ("." + e);
    assert c !in h;
    assert c in "." + e <==> c in e;
  }
}
