/** The bottom navigation bar's highlight rules. */
module MobileNav {
  import opened Seqs

  /** `isActive(path)`: the current pathname equals the path or starts with it. */
  predicate IsActive(pathname: string, path: string) {
    pathname == path || StartsWith(pathname, path)
  }

  /** The equality disjunct adds nothing: a path is active exactly when the pathname
      starts with it, so an exact match and every extension are active. */
  lemma ActiveIsPrefix(pathname: string, path: string)
    ensures IsActive(pathname, path) <==> StartsWith(pathname, path)
    ensures IsActive(path, path)
    ensures IsActive(path + pathname, path)
  {
    assert (path + pathname)[..|path|] == path;
  }

  /** The prefix test is on characters, not segments: Profile is lit on a profiles page. */
  lemma ProfileLitOnProfiles()
    ensures IsActive("/profiles/x", "/profile")
    ensures !IsActive("/browse", "/search")
  {
    ActiveIsPrefix("s/x", "/profile");
    assert "/profile" + "s/x" == "/profiles/x";
    assert "/browse"[..7][1] != "/search"[1];
  }

  /** An occurrence of `t` in `s` is a position where `s` starts with `t`. */
  lemma {:induction false} ContainsSomewhere(s: string, t: string)
    ensures Contains(s, t) <==> exists i :: 0 <= i <= |s| && StartsWith(s[i..], t)
    decreases |s|
  {
    if Contains(s, t) {
      if StartsWith(s, t) {
        assert s[0..] == s;
      } else {
        ContainsSomewhere(s[1..], t);
        var i :| 0 <= i <= |s[1..]| && StartsWith(s[1..][i..], t);
        assert s[1..][i..] == s[i + 1..];
      }
    }
    if exists i :: 0 <= i <= |s| && StartsWith(s[i..], t) {
      var i :| 0 <= i <= |s| && StartsWith(s[i..], t);
      ContainsAt(s, t, i);
    }
  }

  /** The My List tab: lit only on the browse page with `mylist` somewhere in the query. */
  predicate MyListHighlighted(pathname: string, search: string) {
    pathname == "/browse" && Contains(search, "mylist")
  }

  /** The My List tab is never lit without Home being lit too. */
  lemma MyListImpliesHome(pathname: string, search: string)
    requires MyListHighlighted(pathname, search)
    ensures IsActive(pathname, "/browse")
    ensures exists i :: 0 <= i <= |search| && StartsWith(search[i..], "mylist")
  {
    ContainsSomewhere(search, "mylist");
  }

  /** Following the My List link lights both Home and My List. */
  lemma MyListLinkLightsBoth()
    ensures IsActive("/browse", "/browse")
    ensures MyListHighlighted("/browse", "?category=mylist")
  {
    assert "?category=mylist"[10..] == "mylist";
    ContainsAt("?category=mylist", "mylist", 10);
  }
}
