/**
  The Image record and the two places a file of the cache lives: the raw
  download `./var/<key>` and the resolved, upscaled-and-resized file
  `./var/<width>x<height>/<key>`.
*/
module Images {
  import opened GoStd
  import opened Dimensions

  /** An image of the pipeline: the target size and the file that holds it. */
  datatype Image = Image(width: int, height: int, filename: string)

  /** Image.Path: where the raw download of the image is kept, directly
      inside ./var. */
  function Path(img: Image): (p: string)
    ensures '/' !in img.filename ==> Split(p, '/') == [".", "var", img.filename]
  {
    var p := "./var/" + img.filename;
    if '/' in img.filename then p
    else
      SplitRawLayout(img.filename);
      p
  }

  /** "./var/<name>" with no '/' in the name splits into three segments. */
  lemma SplitRawLayout(name: string)
    requires '/' !in name
    ensures Split("./var/" + name, '/') == [".", "var", name]
  {
    assert "./var/" + name == "." + ['/'] + ("var" + ['/'] + name);
    assert Split("var" + ['/'] + name, '/') == ["var", name] by {
      SplitWithoutSeparator(name, '/');
      SplitFirstPiece("var", name, '/');
    }
    SplitFirstPiece(".", "var" + ['/'] + name, '/');
  }

  /** A format "<pre>%v<mid>%v<post><tail>", with %v either %s or %d and no
      '%' in the three literal parts, prints the two operands in place of the
      directives and formats the tail with the rest. */
  lemma TwoDirectiveFormat(pre: string, verb: char, mid: string, post: string, tail: string,
                           first: string, second: string, rest: seq<string>)
    requires '%' !in pre && '%' !in mid && '%' !in post
    requires verb == 's' || verb == 'd'
    requires SimpleFormat(tail, |rest|)
    ensures var format := pre + ['%', verb] + mid + ['%', verb] + post + tail;
      && SimpleFormat(format, |rest| + 2)
      && Sprintf(format, [first, second] + rest) == pre + first + mid + second + post + Sprintf(tail, rest)
  {
    var f3 := post + tail;
    assert SimpleFormat(f3, |rest|) && Sprintf(f3, rest) == post + Sprintf(tail, rest) by {
      SprintfLiteralPrefix(post, tail, rest);
    }
    var f2 := ['%', verb] + f3;
    assert SimpleFormat(f2, |rest| + 1) && Sprintf(f2, [second] + rest) == second + Sprintf(f3, rest) by {
      SprintfDirective(verb, f3, second, rest);
    }
    var f1 := mid + f2;
    assert SimpleFormat(f1, |rest| + 1) && Sprintf(f1, [second] + rest) == mid + Sprintf(f2, [second] + rest) by {
      SprintfLiteralPrefix(mid, f2, [second] + rest);
    }
    var f0 := ['%', verb] + f1;
    var operands := [first] + ([second] + rest);
    assert SimpleFormat(f0, |rest| + 2) && Sprintf(f0, operands) == first + Sprintf(f1, [second] + rest) by {
      SprintfDirective(verb, f1, first, [second] + rest);
    }
    assert SimpleFormat(pre + f0, |rest| + 2) && Sprintf(pre + f0, operands) == pre + Sprintf(f0, operands) by {
      SprintfLiteralPrefix(pre, f0, operands);
    }
    assert operands == [first, second] + rest;
    assert pre + ['%', verb] + mid + ['%', verb] + post + tail == pre + f0 by {
      Regroup(pre, ['%', verb], mid, ['%', verb], post, tail);
    }
    var printed := Sprintf(tail, rest);
    assert pre + first + mid + second + post + printed == pre + (first + (mid + (second + (post + printed)))) by {
      Regroup(pre, first, mid, second, post, printed);
    }
  }

  /** Concatenation of six strings, grouped to the right. */
  lemma Regroup(a: string, b: string, c: string, d: string, e: string, f: string)
    ensures a + b + c + d + e + f == a + (b + (c + (d + (e + f))))
  {
  }

  /** The formats of Image.FinalPath and getImage: "./var/%vx%v/<tail>". */
  lemma SizeDirectoryFormat(verb: char, tail: string, width: string, height: string, rest: seq<string>)
    requires verb == 's' || verb == 'd'
    requires SimpleFormat(tail, |rest|)
    ensures var format := "./var/" + ['%', verb] + "x" + ['%', verb] + "/" + tail;
      && SimpleFormat(format, |rest| + 2)
      && Sprintf(format, [width, height] + rest) == "./var/" + width + "x" + height + "/" + Sprintf(tail, rest)
  {
    TwoDirectiveFormat("./var/", verb, "x", "/", tail, width, height, rest);
  }

  /** The format string of Image.FinalPath. The file name is spliced into it
      rather than passed as an operand, so fmt.Sprintf reads any '%' in it as
      a directive. */
  function FinalPathFormat(filename: string): string
  {
    "./var/%sx%s/" + filename
  }

  /** The part of the format before the file name has the two directives. */
  lemma FinalPathPrefixIsSimple()
    ensures SimpleFormat("./var/%sx%s/", 2)
  {
  }

  /** A '%' in the file name is exactly what makes that format more than the
      two %s directives its operands fill. */
  lemma FinalPathFormatWellFormed(filename: string)
    ensures SimpleFormat(FinalPathFormat(filename), 2) <==> '%' !in filename
  {
    FinalPathPrefixIsSimple();
    SprintfLiteralSuffix("./var/%sx%s/", ["", ""], filename);
  }

  /** What Image.FinalPath prints for a file name without '%'. */
  lemma FinalPathText(img: Image)
    requires '%' !in img.filename
    ensures SimpleFormat(FinalPathFormat(img.filename), 2)
    ensures Sprintf(FinalPathFormat(img.filename), [Itoa(img.width), Itoa(img.height)])
      == "./var/" + Itoa(img.width) + "x" + Itoa(img.height) + "/" + img.filename
  {
    FinalPathFormatPrints(img.filename, Itoa(img.width), Itoa(img.height));
  }

  /** FinalPathText for any two rendered operands. */
  lemma FinalPathFormatPrints(filename: string, width: string, height: string)
    requires '%' !in filename
    ensures SimpleFormat(FinalPathFormat(filename), 2)
    ensures Sprintf(FinalPathFormat(filename), [width, height]) == "./var/" + width + "x" + height + "/" + filename
  {
    LiteralFormat(filename);
    SizeDirectoryFormat('s', filename, width, height, []);
    var spelled := "./var/" + ['%', 's'] + "x" + ['%', 's'] + "/" + filename;
    assert spelled == FinalPathFormat(filename);
    assert [width, height] + [] == [width, height];
  }

  /** Image.FinalPath: the resolved file, in the directory of the target size. */
  function FinalPath(img: Image): (p: string)
    requires '%' !in img.filename
    ensures p == "./var/" + Itoa(img.width) + "x" + Itoa(img.height) + "/" + img.filename
  {
    FinalPathText(img);
    Sprintf(FinalPathFormat(img.filename), [Itoa(img.width), Itoa(img.height)])
  }

  /** What the cache-path format of getImage prints. */
  lemma CachePathText(width: int, height: int, key: string)
    ensures SimpleFormat("./var/%dx%d/%s", 3)
    ensures Sprintf("./var/%dx%d/%s", [Itoa(width), Itoa(height), key])
      == "./var/" + Itoa(width) + "x" + Itoa(height) + "/" + key
  {
    CacheFormatPrints(Itoa(width), Itoa(height), key);
  }

  /** CachePathText for any two rendered sizes. */
  lemma CacheFormatPrints(width: string, height: string, key: string)
    ensures SimpleFormat("./var/%dx%d/%s", 3)
    ensures Sprintf("./var/%dx%d/%s", [width, height, key]) == "./var/" + width + "x" + height + "/" + key
  {
    KeyDirective(key);
    SizeDirectoryFormat('d', "%s", width, height, [key]);
    assert "./var/" + ['%', 'd'] + "x" + ['%', 'd'] + "/" + "%s" == "./var/%dx%d/%s";
    assert [width, height] + [key] == [width, height, key];
  }

  /** The trailing "%s" of that format prints the key. */
  lemma KeyDirective(key: string)
    ensures SimpleFormat("%s", 1)
    ensures Sprintf("%s", [key]) == key
  {
    LiteralFormat("");
    SprintfDirective('s', "", key, []);
    assert ['%', 's'] + "" == "%s";
    assert [key] + [] == [key];
    assert key + "" == key;
  }

  /** The resolved path getImage looks for: fmt.Sprintf("./var/%dx%d/%s", ...). */
  function CachePath(width: int, height: int, key: string): (p: string)
    ensures p == "./var/" + Itoa(width) + "x" + Itoa(height) + "/" + key
  {
    CachePathText(width, height, key);
    Sprintf("./var/%dx%d/%s", [Itoa(width), Itoa(height), key])
  }

  /** The image getImage builds from the key is found at the very path it
      checks: the resolved file of the key is the cache entry. */
  lemma FinalPathMatchesCachePath(width: int, height: int, key: string)
    requires '%' !in key
    ensures FinalPath(Image(width, height, key)) == CachePath(width, height, key)
  {
  }

  /** No decimal number holds a '/'. */
  lemma ItoaHasNoSlash(i: int)
    ensures '/' !in Itoa(i)
  {
    var s := Itoa(i);
    if i < 0 {
      assert forall k :: 1 <= k < |s| ==> IsDigit(s[k]) by {
        assert forall k :: 1 <= k < |s| ==> s[k] == Decimal(-i)[k - 1];
      }
    }
  }

  /** The path "./var/<w>x<h>/<key>" read as "." and the rest after a '/'. */
  lemma CacheLayoutText(w: string, h: string, key: string)
    ensures "./var/" + w + "x" + h + "/" + key == "." + ['/'] + ("var" + ['/'] + (w + "x" + h + ['/'] + key))
  {
  }

  /** A path "./var/<w>x<h>/<key>" with no '/' in its parts splits into
      its four segments. */
  lemma SplitCacheLayout(w: string, h: string, key: string)
    requires '/' !in w && '/' !in h && '/' !in key
    ensures Split("./var/" + w + "x" + h + "/" + key, '/') == [".", "var", w + "x" + h, key]
  {
    var dir := w + "x" + h;
    var inner := dir + ['/'] + key;
    var middle := "var" + ['/'] + inner;
    CacheLayoutText(w, h, key);
    assert Split(inner, '/') == [dir, key] by {
      SplitWithoutSeparator(key, '/');
      SplitFirstPiece(dir, key, '/');
    }
    assert Split(middle, '/') == ["var", dir, key] by {
      SplitFirstPiece("var", inner, '/');
    }
    SplitFirstPiece(".", middle, '/');
  }

  /** The resolved file is the key, in the directory named after the size,
      inside ./var: four '/'-separated segments. */
  lemma CachePathSegments(width: int, height: int, key: string)
    requires '/' !in key
    ensures Split(CachePath(width, height, key), '/') == [".", "var", Itoa(width) + "x" + Itoa(height), key]
  {
    ItoaHasNoSlash(width);
    ItoaHasNoSlash(height);
    SplitCacheLayout(Itoa(width), Itoa(height), key);
  }

  /** Two sizes in the range of `int` never share a resolved file. */
  lemma CachePathInjective(w1: int, h1: int, w2: int, h2: int, key: string)
    requires 0 <= w1 <= MaxInt && 0 <= h1 <= MaxInt
    requires 0 <= w2 <= MaxInt && 0 <= h2 <= MaxInt
    requires '/' !in key
    requires CachePath(w1, h1, key) == CachePath(w2, h2, key)
    ensures w1 == w2 && h1 == h2
  {
    CachePathSegments(w1, h1, key);
    CachePathSegments(w2, h2, key);
    var d1 := Itoa(w1) + "x" + Itoa(h1);
    var d2 := Itoa(w2) + "x" + Itoa(h2);
    assert d1 == Split(CachePath(w1, h1, key), '/')[2] == d2;
    GetDimensionsOfItoa(w1, h1);
    GetDimensionsOfItoa(w2, h2);
  }

  /** The raw download and the resolved file are different files. */
  lemma RawPathIsNotFinalPath(img: Image)
    requires '%' !in img.filename
    ensures Path(img) != FinalPath(img)
  {
    assert |FinalPath(img)| > |Path(img)|;
  }
}
