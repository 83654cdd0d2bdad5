/** The storage helpers for product images: the file path of an upload and the path a
    public URL points to (src/lib/storage.ts). */
module Storage {
  import opened Wrappers
  import opened Text

  /** The part of a public URL that precedes a stored file's path. */
  const Marker := "/product-images/"

  const UploadFailed := "Erreur lors du téléchargement de l'image"

  /** `name.split('.').pop()`: what follows the last dot, or the whole name without one. */
  function FileExtension(name: string): (ext: string)
    ensures |ext| <= |name| && name[|name| - |ext|..] == ext
    ensures '.' !in ext
    ensures |ext| < |name| ==> name[|name| - |ext| - 1] == '.'
  {
    if name == [] || name[|name| - 1] == '.' then []
    else FileExtension(name[..|name| - 1]) + [name[|name| - 1]]
  }

  /** The extension is determined by those three facts: any dot-free suffix that is the
      whole name or follows a dot is the extension. */
  lemma {:induction false} FileExtensionUnique(name: string, ext: string)
    requires |ext| <= |name| && name[|name| - |ext|..] == ext
    requires '.' !in ext
    requires |ext| < |name| ==> name[|name| - |ext| - 1] == '.'
    ensures FileExtension(name) == ext
  {
    if name == [] {
    } else if name[|name| - 1] == '.' {
    } else {
      var n := |name| - 1;
      var c := name[n];
      var init := name[..n];
      var e := ext[..|ext| - 1];
      assert ext == e + [c] by {
        assert ext[|ext| - 1] == name[n];
      }
      assert init[|init| - |e|..] == e by {
        assert name[|name| - |ext|..] == init[|init| - |e|..] + [c];
      }
      assert '.' !in e by {
        assert forall k :: 0 <= k < |e| ==> e[k] == ext[k];
      }
      if |e| < |init| {
        assert init[|init| - |e| - 1] == name[|name| - |ext| - 1];
      }
      FileExtensionUnique(init, e);
      assert FileExtension(name) == FileExtension(init) + [c];
    }
  }

  /** `s.substring(2)`. */
  function DropTwo(s: string): (r: string)
    ensures |s| >= 2 ==> r == s[2..]
    ensures |s| < 2 ==> r == ""
  {
    if |s| >= 2 then s[2..] else ""
  }

  /** The folder and the clock stamp that open every storage path: `products/<stamp>-`. */
  function PathLead(stamp: string): string
  {
    "products/" + stamp + "-"
  }

  /** `products/<stamp>-<suffix>.<ext>`. */
  function StoragePath(stamp: string, suffix: string, ext: string): string
  {
    "products/" + stamp + "-" + suffix + "." + ext
  }

  /** Where each part of a storage path sits: the lead, the random part up to the dot, and
      the extension after it. */
  lemma StoragePathParts(stamp: string, suffix: string, ext: string)
    ensures var p := StoragePath(stamp, suffix, ext);
            && StartsWith(p, "products/")
            && StartsWith(p, "products/" + stamp + "-")
            && p[|p| - |ext|..] == ext && p[|p| - |ext| - 1] == '.'
    ensures var p := StoragePath(stamp, suffix, ext);
            && |p| == |PathLead(stamp)| + |suffix| + 1 + |ext|
            && p[|PathLead(stamp)|..|p| - |ext| - 1] == suffix
  {
    var p := StoragePath(stamp, suffix, ext);
    var head := "products/" + stamp;
    var tail := "-" + suffix + "." + ext;
    assert p == head + tail;
    assert p[..9] == head[..9] == "products/";
    assert p == ("products/" + stamp + "-") + (suffix + "." + ext);
    var front := "products/" + stamp + "-" + suffix + ".";
    assert p == front + ext;
    var lead := PathLead(stamp);
    assert p == lead + suffix + "." + ext;
    assert p[|lead|..|p| - |ext| - 1] == suffix;
  }

  /** The storage path of an upload, from the clock reading `now` and the base-36 text
      `random36` of a random number: it lies under `products/`, the file name starts with
      the clock reading and a dash, then the random text without its first two characters,
      then a dot and the extension of the uploaded file. */
  function UploadPath(name: string, now: nat, random36: string): (path: string)
    ensures StartsWith(path, "products/" + NatToString(now) + "-")
    ensures FileExtension(path) == FileExtension(name)
    ensures path == StoragePath(NatToString(now), DropTwo(random36), FileExtension(name))
  {
    var stamp := NatToString(now);
    var ext := FileExtension(name);
    var suffix := DropTwo(random36);
    StoragePathParts(stamp, suffix, ext);
    StoragePathExtension(stamp, suffix, ext);
    StoragePath(stamp, suffix, ext)
  }

  lemma StoragePathExtension(stamp: string, suffix: string, ext: string)
    requires '.' !in ext
    ensures FileExtension(StoragePath(stamp, suffix, ext)) == ext
  {
    StoragePathParts(stamp, suffix, ext);
    FileExtensionUnique(StoragePath(stamp, suffix, ext), ext);
  }

  /** The outcome of `uploadProductImage`: an upload error becomes the fixed error; else
      the public URL of the path. */
  function UploadProductImage(path: string, uploadError: Option<string>, publicUrl: string -> string)
    : (r: Result<string>)
    ensures uploadError.Some? ==> r == Err(UploadFailed)
    ensures uploadError.None? ==> r == Ok(publicUrl(path))
  {
    if uploadError.Some? then Err(UploadFailed) else Ok(publicUrl(path))
  }

  /** `imageUrl.split('/product-images/')[1]`: the text after the first marker, up to the
      next one or the end of the URL; none when the URL holds no marker. */
  function ExtractPath(url: string): (r: Option<string>)
    ensures r.Some? <==> Includes(url, Marker)
    ensures r.Some? ==> !Includes(r.value, Marker)
    ensures r.Some? ==> exists i: nat :: PathAfterFirstMarker(url, i, r.value)
  {
    IncludesIndexOf(url, Marker);
    match IndexFrom(url, Marker, 0)
    case None => None
    case Some(i) =>
      var rest := url[i + |Marker|..];
      IncludesIndexOf(rest, Marker);
      ShiftOccurs(url, i + |Marker|);
      match IndexFrom(rest, Marker, 0)
      case None =>
        assert forall k: nat :: i + |Marker| <= k ==> !OccursAt(url, Marker, k) by {
          forall k: nat | i + |Marker| <= k ensures !OccursAt(url, Marker, k) {
            assert !OccursAt(rest, Marker, k - i - |Marker|);
          }
        }
        assert PathAfterFirstMarker(url, i, rest);
        Some(rest)
      case Some(j) =>
        PathBetween(url, i, rest, j);
        assert forall k: nat :: i + |Marker| <= k < i + |Marker| + j ==> !OccursAt(url, Marker, k) by {
          forall k: nat | i + |Marker| <= k < i + |Marker| + j ensures !OccursAt(url, Marker, k) {
            assert !OccursAt(rest, Marker, k - i - |Marker|);
          }
        }
        assert PathAfterFirstMarker(url, i, rest[..j]);
        Some(rest[..j])
  }

  /** `v` follows the first marker of `url`, found at `i`, and runs to the end of the URL or
      to the next marker: no marker starts inside `v`. */
  predicate PathAfterFirstMarker(url: string, i: nat, v: string)
  {
    && OccursAt(url, Marker, i)
    && (forall j: nat :: j < i ==> !OccursAt(url, Marker, j))
    && StartsWith(url[i + |Marker|..], v)
    && (forall k: nat :: i + |Marker| <= k < i + |Marker| + |v| ==> !OccursAt(url, Marker, k))
    && (i + |Marker| + |v| == |url| || OccursAt(url, Marker, i + |Marker| + |v|))
  }

  /** That description fixes the value: only one marker position and one text meet it. */
  lemma PathAfterFirstMarkerUnique(url: string, i1: nat, v1: string, i2: nat, v2: string)
    requires PathAfterFirstMarker(url, i1, v1) && PathAfterFirstMarker(url, i2, v2)
    ensures i1 == i2 && v1 == v2
  {
    assert i1 == i2;
    var d := i1 + |Marker|;
    assert |v1| == |v2|;
    assert v1 == url[d..][..|v1|] == v2;
  }

  /** An occurrence in a suffix of `url` is an occurrence in `url`, shifted by the suffix's
      start. */
  lemma ShiftOccurs(url: string, d: nat)
    requires d <= |url|
    ensures forall k: nat :: OccursAt(url, Marker, d + k) <==> OccursAt(url[d..], Marker, k)
  {
    forall k: nat ensures OccursAt(url, Marker, d + k) <==> OccursAt(url[d..], Marker, k) {
      if d + k + |Marker| <= |url| {
        assert url[d + k..d + k + |Marker|] == url[d..][k..k + |Marker|];
      }
    }
  }

  /** The text between a marker at `i` and the first marker, at `j`, of what follows it
      holds no marker and is followed by that marker in the URL. */
  lemma PathBetween(url: string, i: nat, rest: string, j: nat)
    requires OccursAt(url, Marker, i) && rest == url[i + |Marker|..]
    requires OccursAt(rest, Marker, j) && forall k: nat :: k < j ==> !OccursAt(rest, Marker, k)
    ensures !Includes(rest[..j], Marker)
    ensures StartsWith(rest, rest[..j])
    ensures OccursAt(url, Marker, i + |Marker| + |rest[..j]|)
  {
    forall k: nat | k <= |rest[..j]| ensures !OccursAt(rest[..j], Marker, k) {
      if k + |Marker| <= j {
        assert rest[..j][k..k + |Marker|] == rest[k..k + |Marker|];
        assert !OccursAt(rest, Marker, k);
      }
    }
    assert url[i + |Marker| + j..i + |Marker| + j + |Marker|] == rest[j..j + |Marker|];
  }

  /** A public URL made of a base without the marker, the marker and a path reads back as
      that path. */
  lemma ExtractPathRoundTrip(base: string, path: string)
    requires forall j: nat :: j < |base| ==> !OccursAt(base + Marker + path, Marker, j)
    requires !Includes(path, Marker)
    ensures ExtractPath(base + Marker + path) == Some(path)
  {
    var url := base + Marker + path;
    assert OccursAt(url, Marker, |base|) by {
      assert url[|base|..|base| + |Marker|] == Marker;
    }
    assert IndexFrom(url, Marker, 0) == Some(|base|);
    assert url[|base| + |Marker|..] == path;
    IncludesIndexOf(path, Marker);
  }

  /** A public URL whose path is followed by a second marker reads back as the text
      between the first two markers. */
  lemma ExtractPathSecondMarker(base: string, path: string, more: string)
    requires forall j: nat :: j < |base| ==> !OccursAt(base + Marker + path + Marker + more, Marker, j)
    requires forall j: nat :: j < |path| ==> !OccursAt(path + Marker + more, Marker, j)
    ensures ExtractPath(base + Marker + path + Marker + more) == Some(path)
  {
    var rest := path + Marker + more;
    var url := base + Marker + path + Marker + more;
    assert url == base + Marker + rest;
    assert OccursAt(url, Marker, |base|) by {
      assert url[|base|..|base| + |Marker|] == Marker;
    }
    FirstMarkerAt(url, |base|);
    assert url[|base| + |Marker|..] == rest;
    assert OccursAt(rest, Marker, |path|) by {
      assert rest[|path|..|path| + |Marker|] == Marker;
    }
    FirstMarkerAt(rest, |path|);
    assert rest[..|path|] == path;
  }

  /** A marker with none before it is the one `indexOf` finds. */
  lemma FirstMarkerAt(s: string, i: nat)
    requires OccursAt(s, Marker, i)
    requires forall j: nat :: j < i ==> !OccursAt(s, Marker, j)
    ensures IndexFrom(s, Marker, 0) == Some(i)
  {
  }

  /** What `deleteProductImage` does; it never raises. */
  datatype DeleteOutcome = Skipped | Removed(path: string) | RemoveFailedLogged(path: string, error: string)

  /** `deleteProductImage`: a URL without the marker is left alone; otherwise the extracted
      path is removed, and a removal error is only logged. */
  function DeleteProductImage(imageUrl: string, removeError: Option<string>): (r: DeleteOutcome)
    ensures r.Skipped? <==> !Includes(imageUrl, Marker)
    ensures !r.Skipped? ==> Some(r.path) == ExtractPath(imageUrl)
    ensures r.RemoveFailedLogged? <==> !r.Skipped? && removeError.Some?
  {
    match ExtractPath(imageUrl)
    case None => Skipped
    case Some(path) =>
      if removeError.Some? then RemoveFailedLogged(path, removeError.value) else Removed(path)
  }
}
