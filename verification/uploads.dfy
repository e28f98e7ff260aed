/** The receipt upload filter of app.py: which file names may be stored. */
module Uploads {
  import opened Text

  /** ALLOWED_EXTENSIONS. */
  const AllowedExtensions: set<string> := {"png", "jpg", "jpeg", "gif", "pdf"}

  /** `filename.rsplit('.', 1)[1]`: the text after the last '.'. */
  function Extension(name: string): (r: string)
    requires '.' in name
    ensures '.' !in r
    ensures name == name[..LastDot(name)] + "." + r
  {
    name[LastDot(name) + 1..]
  }

  /** allowed_file: the name has a '.', and the text after the last one, lower-cased, is an allowed extension. */
  predicate AllowedFile(name: string): (r: bool)
    ensures r ==> '.' in name && 3 <= |Extension(name)| <= 4
  {
    '.' in name && Lower(Extension(name)) in AllowedExtensions
  }

  /** The last '.' of a stem, a '.', and a dot-free extension is the one before the extension. */
  lemma LastDotBeforeExtension(stem: string, ext: string)
    requires '.' !in ext
    ensures LastDot(stem + "." + ext) == |stem|
  {
    var name := stem + "." + ext;
    assert name[|stem| + 1..] == ext;
    LastDotAt(name, |stem|);
  }

  /**
   * A name made of a stem, a '.', and an extension without dots is allowed
   * exactly when the lower-cased extension is in the list, whatever the stem.
   */
  lemma AllowedByExtension(stem: string, ext: string)
    requires '.' !in ext
    ensures AllowedFile(stem + "." + ext) <==> Lower(ext) in AllowedExtensions
  {
    var name := stem + "." + ext;
    assert name[|stem|] == '.';
    LastDotBeforeExtension(stem, ext);
    assert name[|stem| + 1..] == ext;
  }

  /** A name without a '.' is refused. */
  lemma NoDotRefused(name: string)
    requires '.' !in name
    ensures !AllowedFile(name)
  {
  }
}
