/** The string and path helpers of the JavaScript build script: the file-name tag
    inserted before the last extension (`addExtension`), the Vue guard spliced into
    generated UMD code (`injectVueRequirement`), and the camelCase global name
    derived from a kebab-case asset file name (inside `addUmdAssets`). */
module BuildStrings {
  import opened JsStrings

  // ---------------------------------------------------------------------------
  // addExtension

  /** Inserts `.<ext>` before the last extension of `filename`, turning a final
      `.mjs` into `.js`. Without any `.`, `lastIndexOf` gives -1 and the two
      `slice` calls split off the last character instead. */
  function AddExtension(filename: string, ext: string := "prod"): (r: string)
  {
    var insertionPoint := LastIndexOf(filename, '.');
    var suffix := SliceFrom(filename, insertionPoint);
    Slice(filename, 0, insertionPoint) + "." + ext + (if suffix == ".mjs" then ".js" else suffix)
  }

  /** The extension that ends the tagged name: `.mjs` becomes `.js`, anything else stays. */
  function TaggedSuffix(suffix: string): string
  {
    if suffix == ".mjs" then ".js" else suffix
  }

  /** `p` is the position of the last `.` of `s`. */
  predicate IsLastDot(s: string, p: int)
  {
    0 <= p < |s| && s[p] == '.' && forall k :: p < k < |s| ==> s[k] != '.'
  }

  /** With a `.` at position `p` and none after it, everything before `p` is
      kept, `.<ext>` follows, and the old extension closes the name. */
  lemma AddExtensionAtLastDot(filename: string, ext: string, p: int)
    requires IsLastDot(filename, p)
    ensures AddExtension(filename, ext) == filename[..p] + "." + ext + TaggedSuffix(filename[p..])
    ensures AddExtension(filename, ext)[..p] == filename[..p]
  {
    assert LastIndexOf(filename, '.') == p;
  }

  /** Without any `.`, `slice(-1)` moves the last character behind the tag. */
  lemma AddExtensionWithoutDot(filename: string, ext: string)
    requires forall k :: 0 <= k < |filename| ==> filename[k] != '.'
    ensures filename == [] ==> AddExtension(filename, ext) == "." + ext
    ensures filename != [] ==>
      AddExtension(filename, ext) == filename[..|filename| - 1] + "." + ext + [filename[|filename| - 1]]
  {
    assert LastIndexOf(filename, '.') == -1;
  }

  /** The old extension never holds a second `.`. */
  lemma LastDotSuffix(s: string, p: int)
    requires IsLastDot(s, p)
    ensures IsLastDot(s[p..], 0)
    ensures EndsWith(s, ".mjs") <==> s[p..] == ".mjs"
    ensures EndsWith(s, ".js") <==> s[p..] == ".js"
  {
    var t := s[p..];
    if EndsWith(s, ".mjs") {
      assert s[|s| - 4] == '.';
      assert t == s[|s| - 4..];
    }
    if EndsWith(s, ".js") {
      assert s[|s| - 3] == '.';
      assert t == s[|s| - 3..];
    }
  }

  /** Whatever precedes an extension, the whole ends in `.js` exactly when the
      extension is `.js`. */
  lemma EndsInJsAfterDot(front: string, s: string)
    requires IsLastDot(s, 0)
    ensures EndsWith(front + s, ".js") <==> s == ".js"
  {
    var r := front + s;
    var m := |r|;
    if s != ".js" {
      if |s| > 3 {
        assert r[m - 3] == s[|s| - 3] && s[|s| - 3] != '.';
      } else if |s| == 3 {
        assert r[m - 3..] == s;
      } else if |s| == 2 {
        assert r[m - 2] == s[0] == '.';
      } else {
        assert r[m - 1] == s[0] == '.';
      }
    }
  }

  /** A name with an extension comes out of `addExtension` ending in `.js`
      exactly when it went in ending in `.mjs` or `.js`. */
  lemma AddExtensionEndsInJs(filename: string, ext: string)
    requires '.' in filename
    ensures EndsWith(AddExtension(filename, ext), ".js") <==>
            EndsWith(filename, ".mjs") || EndsWith(filename, ".js")
  {
    var p := LastIndexOf(filename, '.');
    AddExtensionAtLastDot(filename, ext, p);
    LastDotSuffix(filename, p);
    var t := TaggedSuffix(filename[p..]);
    assert IsLastDot(t, 0);
    EndsInJsAfterDot(filename[..p] + "." + ext, t);
  }

  /** Tagging twice, as a UMD asset's minified file is named (`umd` when the
      job is created, then the default `prod` when the minified code is
      written), stacks both tags before the original extension. */
  lemma AddExtensionTwice(filename: string, first: string, second: string, p: int)
    requires IsLastDot(filename, p)
    ensures AddExtension(AddExtension(filename, first), second) ==
            filename[..p] + "." + first + "." + second + TaggedSuffix(filename[p..])
  {
    var s := filename[p..];
    var t := TaggedSuffix(s);
    AddExtensionAtLastDot(filename, first, p);
    LastDotSuffix(filename, p);
    var once := filename[..p] + "." + first + t;
    var q := p + 1 + |first|;
    assert once[q..] == t;
    assert IsLastDot(once, q) by {
      forall k | q < k < |once| ensures once[k] != '.' {
        assert once[k] == t[k - q];
      }
    }
    AddExtensionAtLastDot(once, second, q);
    assert once[..q] == filename[..p] + "." + first;
  }

  /** A `.mjs` name tagged once and then again ends in both tags and `.js`. */
  lemma AddExtensionMjs(x: string, first: string, second: string)
    requires EndsWith(x, ".mjs")
    ensures AddExtension(x, first) == x[..|x| - 4] + ("." + first + ".js")
    ensures AddExtension(AddExtension(x, first), second) == x[..|x| - 4] + ("." + first + "." + second + ".js")
  {
    var p := |x| - 4;
    assert x[p..] == ".mjs";
    AddExtensionAtLastDot(x, first, p);
    AddExtensionTwice(x, first, second, p);
  }

  /** The names given to a UMD build of a `.mjs` module: `<base>.umd.js`, and
      `<base>.umd.prod.js` for its minified copy. */
  lemma UmdFileNames(x: string)
    requires EndsWith(x, ".mjs")
    ensures AddExtension(x, "umd") == x[..|x| - 4] + ".umd.js"
    ensures AddExtension(AddExtension(x, "umd")) == x[..|x| - 4] + ".umd.prod.js"
  {
    AddExtensionMjs(x, "umd", "prod");
    UmdTags();
  }

  /** Proof helper for `UmdFileNames`: the tag strings spelled as literals. Kept
      apart so that these literal equalities are proved without the context of
      the lemma that uses them. */
  lemma UmdTags()
    ensures "." + "umd" + ".js" == ".umd.js"
    ensures "." + "umd" + "." + "prod" + ".js" == ".umd.prod.js"
  {
  }

  /** The language pack `en-US.mjs` becomes `en-US.umd.js`. */
  lemma AddExtensionExample()
    ensures AddExtension("en-US.mjs", "umd") == "en-US.umd.js"
  {
    var f := "en-US.mjs";
    assert f[..5] == "en-US" && f[5..] == ".mjs";
    AddExtensionAtLastDot(f, "umd", 5);
  }

  /** The default tag turns `quasar.umd.js` into `quasar.umd.prod.js`. */
  lemma AddExtensionDefaultExample()
    ensures AddExtension("quasar.umd.js") == "quasar.umd.prod.js"
  {
    var f := "quasar.umd.js";
    assert f[..10] == "quasar.umd" && f[10..] == ".js";
    AddExtensionAtLastDot(f, "prod", 10);
  }

  // ---------------------------------------------------------------------------
  // injectVueRequirement

  /** The line Rollup emits to unwrap Vue's default export in UMD output. */
  const VueMarker: string := "Vue = Vue && Vue.hasOwnProperty('default') ? Vue['default'] : Vue"

  /** The guard spliced in before the marker: it stops the bundle with an error
      message when Vue has not been loaded. */
  const VueGuard: string :=
    " if (Vue === void 0) {\n"
    + "    console.error('[ Quasar ] Vue is required to run. Please add a script tag for it before loading Quasar.')\n"
    + "    return\n"
    + "  }\n"
    + "  "

  /** `code.substring(0, index - 1) + guard + code.substring(index)` at the
      first `marker`: the guard goes in before it and the character just before
      it is dropped (`substring(0, -1)` is empty when the marker opens the code);
      code without the marker is returned as it is. */
  function SpliceBefore(code: string, marker: string, guard: string): (r: string)
  {
    var index := IndexOf(code, marker);
    if index == -1 then code
    else Substring(code, 0, index - 1) + guard + SubstringFrom(code, index)
  }

  /** `injectVueRequirement(code)`. */
  function InjectVueRequirement(code: string): (r: string)
  {
    SpliceBefore(code, VueMarker, VueGuard)
  }

  /** `i` is where `marker` first occurs in `code`. */
  predicate FirstAt(code: string, marker: string, i: int)
  {
    OccursAt(code, marker, i) && forall k :: 0 <= k < i ==> !OccursAt(code, marker, k)
  }

  /** How much of the code before the marker survives the splice. */
  function KeptPrefix(i: nat): nat
  {
    if i == 0 then 0 else i - 1
  }

  /** With a guard longer than the one character it replaces, the code is left
      untouched exactly when the marker does not occur in it. */
  lemma SpliceUnchangedIffAbsent(code: string, marker: string, guard: string)
    requires |guard| > 1
    ensures SpliceBefore(code, marker, guard) == code <==> forall k :: !OccursAt(code, marker, k)
  {
    var index := IndexOf(code, marker);
    if index != -1 {
      var r := SpliceBefore(code, marker, guard);
      assert |r| == KeptPrefix(index) + |guard| + |code| - index;
      assert |r| > |code|;
    }
  }

  /** At the first marker `i`, everything before it but the last character is
      kept, the guard follows, and the code from the marker on is copied
      verbatim, so the marker now sits right after the guard. */
  lemma SpliceAtFirst(code: string, marker: string, guard: string, i: int)
    requires FirstAt(code, marker, i)
    ensures SpliceBefore(code, marker, guard) == code[..KeptPrefix(i)] + guard + code[i..]
    ensures OccursAt(SpliceBefore(code, marker, guard), marker, KeptPrefix(i) + |guard|)
    ensures |SpliceBefore(code, marker, guard)| == |code| + |guard| - (i - KeptPrefix(i))
  {
    var index := IndexOf(code, marker);
    assert index == i;
    var r := SpliceBefore(code, marker, guard);
    var at := KeptPrefix(i) + |guard|;
    assert r[at..] == code[i..];
    assert r[at..at + |marker|] == code[i..i + |marker|];
  }

  /** Code without the Vue marker is left untouched, and only such code is. */
  lemma InjectUnchangedIffNoMarker(code: string)
    ensures InjectVueRequirement(code) == code <==> forall k :: !OccursAt(code, VueMarker, k)
  {
    assert VueGuard[..2] == " i";
    SpliceUnchangedIffAbsent(code, VueMarker, VueGuard);
  }

  /** When the Vue marker first occurs at `i`, the guard replaces the character
      before it, the code from the marker on is kept verbatim, and the result
      still holds the marker, right after the guard. */
  lemma InjectAtFirstMarker(code: string, i: int)
    requires FirstAt(code, VueMarker, i)
    ensures InjectVueRequirement(code) == code[..KeptPrefix(i)] + VueGuard + code[i..]
    ensures OccursAt(InjectVueRequirement(code), VueMarker, KeptPrefix(i) + |VueGuard|)
    ensures |InjectVueRequirement(code)| == |code| + |VueGuard| - (i - KeptPrefix(i))
  {
    SpliceAtFirst(code, VueMarker, VueGuard, i);
  }

  // ---------------------------------------------------------------------------
  // The asset name derived in addUmdAssets

  /** `s.replace(/-([a-zA-Z])/g, g => g[1].toUpperCase())`: scanning left to
      right, every `-` followed by an ASCII letter is replaced by that letter
      in upper case; matches do not overlap. */
  function Camelize(s: string): (r: string)
    decreases |s|
  {
    if |s| == 0 then ""
    else if s[0] == '-' && |s| >= 2 && IsAsciiLetter(s[1]) then [ToUpperAscii(s[1])] + Camelize(s[2..])
    else [s[0]] + Camelize(s[1..])
  }

  /** The global name of an asset: its file name without the last four
      characters (the `.mjs`), camelized. */
  function AssetName(file: string): (r: string)
  {
    Camelize(Substring(file, 0, |file| - 4))
  }

  /** No `-` directly before an ASCII lower-case letter. */
  predicate NoDashBeforeLower(s: string)
  {
    forall k :: 0 <= k < |s| - 1 ==> !(s[k] == '-' && IsAsciiLower(s[k + 1]))
  }

  /** The first character of the camelized text is decided by the first two of the input. */
  lemma CamelizeHead(s: string)
    requires |s| > 0
    ensures |Camelize(s)| > 0
    ensures s[0] == '-' && |s| >= 2 && IsAsciiLetter(s[1]) ==> Camelize(s)[0] == ToUpperAscii(s[1])
    ensures !(s[0] == '-' && |s| >= 2 && IsAsciiLetter(s[1])) ==> Camelize(s)[0] == s[0]
  {
  }

  /** Camelizing never leaves a `-` in front of a lower-case letter: every such
      pair in the input is either replaced or, after a `-` that was kept, starts
      a replacement whose letter is upper case. */
  lemma {:induction false} CamelizeNoDashBeforeLower(s: string)
    decreases |s|
    ensures NoDashBeforeLower(Camelize(s))
  {
    if |s| == 0 {
    } else if s[0] == '-' && |s| >= 2 && IsAsciiLetter(s[1]) {
      CamelizeNoDashBeforeLower(s[2..]);
      var r := Camelize(s);
      var rest := Camelize(s[2..]);
      assert r == [ToUpperAscii(s[1])] + rest;
      forall k | 0 <= k < |r| - 1 ensures !(r[k] == '-' && IsAsciiLower(r[k + 1])) {
        if k > 0 {
          assert r[k] == rest[k - 1] && r[k + 1] == rest[k];
        }
      }
    } else {
      CamelizeNoDashBeforeLower(s[1..]);
      var r := Camelize(s);
      var rest := Camelize(s[1..]);
      assert r == [s[0]] + rest;
      if |s| >= 2 {
        CamelizeHead(s[1..]);
      }
      forall k | 0 <= k < |r| - 1 ensures !(r[k] == '-' && IsAsciiLower(r[k + 1])) {
        if k > 0 {
          assert r[k] == rest[k - 1] && r[k + 1] == rest[k];
        }
      }
    }
  }

  /** Text without `-` is left as it is. */
  lemma {:induction false} CamelizeWithoutDash(s: string)
    requires '-' !in s
    ensures Camelize(s) == s
  {
    if |s| > 0 {
      assert '-' !in s[1..];
      CamelizeWithoutDash(s[1..]);
    }
  }

  /** The reverse spelling: every ASCII upper-case letter becomes `-` and its
      lower-case form. */
  function Kebabize(s: string): (r: string)
    decreases |s|
  {
    if |s| == 0 then ""
    else if IsAsciiUpper(s[0]) then ['-', ToLowerAscii(s[0])] + Kebabize(s[1..])
    else [s[0]] + Kebabize(s[1..])
  }

  /** Kebab-case text: no upper-case ASCII letters, and every `-` is followed by
      a lower-case one. */
  predicate IsKebabCase(s: string)
  {
    && (forall k :: 0 <= k < |s| ==> !IsAsciiUpper(s[k]))
    && (forall k :: 0 <= k < |s| && s[k] == '-' ==> k + 1 < |s| && IsAsciiLower(s[k + 1]))
  }

  /** Kebab-case names survive the camelCase round trip. */
  lemma {:induction false} KebabizeCamelize(s: string)
    requires IsKebabCase(s)
    decreases |s|
    ensures Kebabize(Camelize(s)) == s
  {
    if |s| == 0 {
    } else if s[0] == '-' {
      assert IsAsciiLower(s[1]);
      var rest := Camelize(s[2..]);
      assert IsKebabCase(s[2..]) by {
        forall k | 0 <= k < |s[2..]| && s[2..][k] == '-'
          ensures k + 1 < |s[2..]| && IsAsciiLower(s[2..][k + 1])
        {
          assert s[k + 2] == '-';
        }
      }
      KebabizeCamelize(s[2..]);
      var u := ToUpperAscii(s[1]);
      var c := [u] + rest;
      assert c == Camelize(s);
      assert c[0] == u && c[1..] == rest;
      assert ToLowerAscii(u) == s[1];
      assert Kebabize(c) == ['-', s[1]] + Kebabize(rest);
      assert s == ['-', s[1]] + s[2..];
    } else {
      var rest := Camelize(s[1..]);
      assert IsKebabCase(s[1..]) by {
        forall k | 0 <= k < |s[1..]| && s[1..][k] == '-'
          ensures k + 1 < |s[1..]| && IsAsciiLower(s[1..][k + 1])
        {
          assert s[k + 1] == '-';
        }
      }
      KebabizeCamelize(s[1..]);
      var c := [s[0]] + rest;
      assert c == Camelize(s);
      assert c[0] == s[0] && c[1..] == rest;
      assert Kebabize(c) == [s[0]] + Kebabize(rest);
      assert s == [s[0]] + s[1..];
    }
  }

  /** Conversely, a camelCase name without `-` comes back from its kebab-case spelling. */
  lemma {:induction false} CamelizeKebabize(s: string)
    requires '-' !in s
    decreases |s|
    ensures Camelize(Kebabize(s)) == s
  {
    if |s| > 0 {
      assert '-' !in s[1..];
      CamelizeKebabize(s[1..]);
      var rest := Kebabize(s[1..]);
      if IsAsciiUpper(s[0]) {
        var k := ['-', ToLowerAscii(s[0])] + rest;
        assert k[0] == '-' && k[1] == ToLowerAscii(s[0]) && k[2..] == rest;
        assert Camelize(k) == [ToUpperAscii(ToLowerAscii(s[0]))] + Camelize(rest);
      } else {
        var k := [s[0]] + rest;
        assert k[0] == s[0] && k[1..] == rest;
        assert Camelize(k) == [s[0]] + Camelize(rest);
      }
      assert s == [s[0]] + s[1..];
    }
  }

  /** The language pack `en-US.mjs` is published as `enUS`. */
  lemma AssetNameExample()
    ensures AssetName("en-US.mjs") == "enUS"
  {
    assert "en-US.mjs"[..5] == "en-US";
    assert Camelize("US") == "US" by { CamelizeWithoutDash("US"); }
    assert Camelize("-US") == "US";
    assert Camelize("n-US") == "nUS";
    assert Camelize("en-US") == "enUS";
  }

  /** The icon set `mdi-v7.mjs` is published as `mdiV7`. */
  lemma AssetNameIconSetExample()
    ensures AssetName("mdi-v7.mjs") == "mdiV7"
  {
    assert "mdi-v7.mjs"[..6] == "mdi-v7";
    assert Camelize("-v7") == "V7";
    assert Camelize("i-v7") == "iV7";
    assert Camelize("di-v7") == "diV7";
    assert Camelize("mdi-v7") == "mdiV7";
  }
}
