/**
 * The static link table of src-tauri/src/main.rs, its lookup by id
 * (`LINKS.iter().find(..)`) and the loop that builds the GitHub submenu
 * from the entries whose id starts with "open-github".
 */
module Links {
  import opened Options
  import opened StringOps
  import opened ClipboardUrl

  /** One `(id, label, url)` triple of the table (`label` is a Dafny keyword, hence `name`). */
  datatype Link = Link(id: string, name: string, url: string)

  /** A custom tray menu item: its id and its title. */
  datatype MenuItem = MenuItem(id: string, title: string)

  const LINKS: seq<Link> := [
    Link("open-github-infinitel8p", "InfiniteL8p", "https://github.com/infinitel8p"),
    Link("open-github-zaplink", "ZapLink", "https://github.com/infinitel8p/zaplink")
  ]

  const GITHUB_PREFIX := "open-github"

  /** No two entries of the table share an id. */
  lemma LinkIdsDistinct()
    ensures forall i, j :: 0 <= i < |LINKS| && 0 <= j < |LINKS| && LINKS[i].id == LINKS[j].id ==> i == j
  {
    assert LINKS[0].id[5..] != LINKS[1].id[5..] by {
      assert LINKS[0].id[12] != LINKS[1].id[12];
    }
  }

  /** Every URL of the table carries a scheme. */
  lemma LinkUrlsHaveScheme()
    ensures forall i :: 0 <= i < |LINKS| ==> HasScheme(LINKS[i].url)
  {
    assert LINKS[0].url[..|HTTPS_SCHEME|] == HTTPS_SCHEME;
    assert LINKS[1].url[..|HTTPS_SCHEME|] == HTTPS_SCHEME;
  }

  /** Every id of the table starts with "open-github". */
  lemma LinkIdsAreGithub()
    ensures forall i :: 0 <= i < |LINKS| ==> StartsWith(LINKS[i].id, GITHUB_PREFIX)
  {
    assert LINKS[0].id[..|GITHUB_PREFIX|] == GITHUB_PREFIX;
    assert LINKS[1].id[..|GITHUB_PREFIX|] == GITHUB_PREFIX;
  }

  /** `links.iter().find(|l| l.id == id)`: the first entry with that id, if any. */
  function Find(links: seq<Link>, id: string): (r: Option<Link>)
    ensures r.None? <==> forall i :: 0 <= i < |links| ==> links[i].id != id
    ensures r.Some? ==> r.value in links && r.value.id == id
    ensures r.Some? && links != [] && links[0].id != id ==> r.value in links[1..]
  {
    if links == [] then None
    else if links[0].id == id then Some(links[0])
    else Find(links[1..], id)
  }

  /** The entry `Find` returns comes before every other entry with the same id. */
  lemma {:induction false} FindIsFirst(links: seq<Link>, id: string, i: nat)
    requires i < |links| && links[i].id == id
    ensures Find(links, id).Some?
    ensures exists k :: 0 <= k <= i && links[k] == Find(links, id).value
  {
    if links[0].id != id {
      FindIsFirst(links[1..], id, i - 1);
      var k :| 0 <= k <= i - 1 && links[1..][k] == Find(links[1..], id).value;
      assert links[k + 1] == Find(links, id).value;
    }
  }

  /** The lookup done on a menu click. */
  function FindLink(id: string): (r: Option<Link>)
    ensures r.Some? <==> exists i :: 0 <= i < |LINKS| && LINKS[i].id == id
    ensures r.Some? ==> r.value in LINKS && r.value.id == id
  {
    Find(LINKS, id)
  }

  /** A lookup by an id of the table yields exactly that entry. */
  lemma FindLinkUnique(id: string, i: nat)
    requires i < |LINKS| && LINKS[i].id == id
    ensures FindLink(id) == Some(LINKS[i])
  {
    FindIsFirst(LINKS, id, i);
    LinkIdsDistinct();
  }

  /** `links.iter().filter(|l| l.id.starts_with(prefix))`, in table order. */
  function FilterByPrefix(links: seq<Link>, prefix: string): (r: seq<Link>)
    ensures |r| <= |links|
    ensures forall k :: 0 <= k < |r| ==> StartsWith(r[k].id, prefix)
  {
    if links == [] then []
    else (if StartsWith(links[0].id, prefix) then [links[0]] else []) + FilterByPrefix(links[1..], prefix)
  }

  /** The filter keeps exactly the entries whose id starts with the prefix. */
  lemma {:induction false} FilterMembership(links: seq<Link>, prefix: string)
    ensures forall l :: l in FilterByPrefix(links, prefix) <==> l in links && StartsWith(l.id, prefix)
  {
    if links != [] {
      FilterMembership(links[1..], prefix);
      assert forall l :: l in links <==> l == links[0] || l in links[1..];
    }
  }

  /** Filtering distributes over concatenation, so it keeps the table order. */
  lemma {:induction false} FilterAppend(a: seq<Link>, b: seq<Link>, prefix: string)
    ensures FilterByPrefix(a + b, prefix) == FilterByPrefix(a, prefix) + FilterByPrefix(b, prefix)
  {
    if a == [] {
      assert a + b == b;
    } else {
      assert (a + b)[0] == a[0];
      assert (a + b)[1..] == a[1..] + b;
      FilterAppend(a[1..], b, prefix);
    }
  }

  /** The menu item made for each entry: its id and, as title, its label (`name`). */
  function ItemsOf(links: seq<Link>): (items: seq<MenuItem>)
    ensures |items| == |links|
    ensures forall i :: 0 <= i < |links| ==> items[i] == MenuItem(links[i].id, links[i].name)
  {
    if links == [] then [] else [MenuItem(links[0].id, links[0].name)] + ItemsOf(links[1..])
  }

  lemma {:induction false} ItemsOfAppend(a: seq<Link>, b: seq<Link>)
    ensures ItemsOf(a + b) == ItemsOf(a) + ItemsOf(b)
  {
  }

  /** A one-entry table filters to that entry or to nothing. */
  lemma FilterSingleton(link: Link, prefix: string)
    ensures FilterByPrefix([link], prefix) == if StartsWith(link.id, prefix) then [link] else []
  {
    assert [link][1..] == [];
  }

  /** One more entry adds at most its own item to the submenu. */
  lemma SubmenuStep(links: seq<Link>, i: nat, prefix: string)
    requires i < |links|
    ensures ItemsOf(FilterByPrefix(links[..i + 1], prefix)) ==
      ItemsOf(FilterByPrefix(links[..i], prefix)) +
      (if StartsWith(links[i].id, prefix) then [MenuItem(links[i].id, links[i].name)] else [])
  {
    assert links[..i + 1] == links[..i] + [links[i]];
    FilterAppend(links[..i], [links[i]], prefix);
    FilterSingleton(links[i], prefix);
    ItemsOfAppend(FilterByPrefix(links[..i], prefix), FilterByPrefix([links[i]], prefix));
  }

  /**
   * The submenu loop: one item per entry whose id starts with the prefix, in
   * table order. The lazy filter tests each entry as the loop reaches it.
   * At start-up it runs over `LINKS` with the prefix "open-github".
   */
  method BuildSubmenu(links: seq<Link>, prefix: string) returns (menu: seq<MenuItem>)
    ensures menu == ItemsOf(FilterByPrefix(links, prefix))
  {
    menu := [];
    for i := 0 to |links|
      invariant menu == ItemsOf(FilterByPrefix(links[..i], prefix))
    {
      var link := links[i];
      if StartsWith(link.id, prefix) {
        menu := menu + [MenuItem(link.id, link.name)];
      }
      SubmenuStep(links, i, prefix);
    }
    assert links[..|links|] == links;
  }

  /** Both table entries are GitHub links, so the submenu lists both. */
  lemma GithubSubmenuContents()
    ensures ItemsOf(FilterByPrefix(LINKS, GITHUB_PREFIX)) ==
      [MenuItem("open-github-infinitel8p", "InfiniteL8p"), MenuItem("open-github-zaplink", "ZapLink")]
  {
    LinkIdsAreGithub();
    assert LINKS == [LINKS[0]] + [LINKS[1]];
    FilterAppend([LINKS[0]], [LINKS[1]], GITHUB_PREFIX);
    FilterSingleton(LINKS[0], GITHUB_PREFIX);
    FilterSingleton(LINKS[1], GITHUB_PREFIX);
  }
}
