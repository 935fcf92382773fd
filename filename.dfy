/** `get_file_name`: the path component after the last '/'. */
module FileName {
  import opened Strings

  /** The text after the last '/', or `file` itself when it is empty or has no '/'. */
  function StripPath(file: string): (r: string)
    ensures |r| <= |file| && r == file[|file| - |r|..]
    ensures '/' !in r
    ensures '/' !in file ==> r == file
    ensures '/' in file ==> |r| < |file| && file[|file| - |r| - 1] == '/'
  {
    if |file| > 0 then
      match LastIndexOf(file, '/')
      case Some(i) => file[i + 1..]
      case None => file
    else file
  }

  /** The result is exactly what follows the last '/': splitting there leaves a
      tail with no '/', and that tail is the result. */
  lemma StripPathAfterLastSlash(dir: string, name: string)
    requires '/' !in name
    ensures StripPath(dir + "/" + name) == name
  {
    LastIndexOfSplit(dir, '/', name);
    assert (dir + "/" + name)[|dir| + 1..] == name;
  }

  /** A path that ends in '/' strips to the empty name. */
  lemma TrailingSlash(dir: string)
    ensures StripPath(dir + "/") == ""
  {
    StripPathAfterLastSlash(dir, "");
    assert dir + "/" + "" == dir + "/";
  }

  /** The result is part of `file`, so a character `file` lacks is missing from it too. */
  lemma StripPathHasNo(file: string, c: char)
    requires c !in file
    ensures c !in StripPath(file)
  {
    var r := StripPath(file);
    forall k | 0 <= k < |r| ensures r[k] != c {
      assert r[k] == file[|file| - |r| + k];
    }
  }

  /** Stripping an already stripped name changes nothing. */
  lemma StripPathIdempotent(file: string)
    ensures StripPath(StripPath(file)) == StripPath(file)
  {
  }
}
