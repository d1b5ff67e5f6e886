/** The asset resolvers `renderJS`, `renderJSModule`, `renderJSPath` and
    `renderCSS`, and `getThemeVersion`. The four resolvers share one per-path
    step (`cdnPathHandle`): with the CDN switched off it defers to the host's
    local helper; with the CDN on it fills the provider's URL template with the
    theme version and the path and wraps the URL in the resolver's tag. */
module Cdn {
  import opened Wrappers
  import opened Strings

  /** The `cdn` section of the theme configuration: `enable`, `provider` and
      `custom_url` (`None` when unset). */
  datatype CdnConfig = CdnConfig(enable: bool, provider: string, customUrl: Option<string>)

  /** What the resolvers take from their surroundings: the theme configuration,
      the theme's version (from its package descriptor), and the host's local
      helpers `js(path)`, `js({ src: path, type: "module" })`, `url_for(path)`
      and `css(path)`, whose workings are not part of this model. */
  datatype Host = Host(
    theme: CdnConfig,
    version: string,
    js: string -> string,
    jsModule: string -> string,
    urlFor: string -> string,
    css: string -> string)

  /** A provider's URL template `https://<site>:version<mid>:path`. */
  function Tpl(site: string, mid: string): string
  {
    "https://" + site + ":version" + mid + ":path"
  }

  /** `https://cdn.staticfile.net/hexo-theme-redefine/:version/:path`, the fallback. */
  const StaticfileTemplate := Tpl("cdn.staticfile.net/hexo-theme-redefine/", "/")

  /** The built-in providers and their URL templates, each written as
      `https://<site>:version<mid>:path`. */
  const BuiltInProviders: map<string, string> := map[
    "staticfile" := StaticfileTemplate,
    "bootcdn" := Tpl("cdn.bootcdn.net/ajax/libs/hexo-theme-redefine/", "/"),
    "sustech" := Tpl("mirrors.sustech.edu.cn/cdnjs/ajax/libs/hexo-theme-redefine/", "/"),
    "zstatic" := Tpl("s4.zstatic.net/ajax/libs/hexo-theme-redefine/", "/"),
    "cdnjs" := Tpl("cdnjs.cloudflare.com/ajax/libs/hexo-theme-redefine/", "/"),
    "unpkg" := Tpl("unpkg.com/hexo-theme-redefine@", "/source/"),
    "jsdelivr" := Tpl("cdn.jsdelivr.net/npm/hexo-theme-redefine@", "/source/"),
    "aliyun" := Tpl("evan.beee.top/projects/hexo-theme-redefine/", "/source/"),
    "npmmirror" := Tpl("registry.npmmirror.com/hexo-theme-redefine/", "/files/source/")
  ]

  /** `cdnProviders`: the built-in table plus the `custom` entry, which is
      present only when `custom_url` is set. */
  function CdnProviders(cfg: CdnConfig): map<string, string>
  {
    if cfg.customUrl.Some? then BuiltInProviders["custom" := cfg.customUrl.value]
    else BuiltInProviders
  }

  /** `cdnProviders[provider] || cdnProviders.staticfile`: a missing entry
      and an empty `custom_url` both fall back to the staticfile template. */
  function CdnBase(cfg: CdnConfig): (base: string)
    ensures cfg.provider in BuiltInProviders ==> base == BuiltInProviders[cfg.provider]
    ensures cfg.provider == "custom" && cfg.customUrl.Some? && cfg.customUrl.value != "" ==>
              base == cfg.customUrl.value
    ensures cfg.provider !in BuiltInProviders
            && (cfg.provider != "custom" || cfg.customUrl.None? || cfg.customUrl.value == "") ==>
              base == StaticfileTemplate
  {
    var providers := CdnProviders(cfg);
    if cfg.provider in providers && providers[cfg.provider] != "" then providers[cfg.provider]
    else providers["staticfile"]
  }

  /** The four resolvers: script tag, module script tag, bare URL, stylesheet link. */
  datatype AssetKind = Script | ModuleScript | PlainPath | Stylesheet

  /** The host's local helper the resolver defers to. */
  function Local(kind: AssetKind, host: Host, path: string): string
  {
    match kind
    case Script => host.js(path)
    case ModuleScript => host.jsModule(path)
    case PlainPath => host.urlFor(path)
    case Stylesheet => host.css(path)
  }

  /** The markup around a URL. */
  function Wrap(kind: AssetKind, url: string): string
  {
    match kind
    case Script => "<script src=\"" + url + "\"></script>"
    case ModuleScript => "<script type=\"module\" src=\"" + url + "\"></script>"
    case PlainPath => url
    case Stylesheet => "<link rel=\"stylesheet\" href=\"" + url + "\">"
  }

  /** The provider template with its first `:version` replaced by the theme
      version, and then its first `:path` replaced by the path. */
  function CdnUrl(host: Host, path: string): string
  {
    ReplaceFirst(ReplaceFirst(CdnBase(host.theme), ":version", host.version), ":path", path)
  }

  /** `cdnPathHandle(path)`, as each resolver writes it. In the `custom`
      branch the scripts and the bare path check `enable` a second time; it is
      always true there, so custom and built-in providers are wrapped alike. */
  function PathHandle(kind: AssetKind, host: Host, path: string): (out: string)
    ensures !host.theme.enable ==> out == Local(kind, host, path)
    ensures host.theme.enable ==> out == Wrap(kind, CdnUrl(host, path))
  {
    var cfg := host.theme;
    if cfg.enable then
      if cfg.provider == "custom" then
        var customUrl := CdnUrl(host, path);
        if kind == Stylesheet then Wrap(kind, customUrl)
        else Wrap(kind, if cfg.enable then customUrl else Local(kind, host, path))
      else
        Wrap(kind, CdnUrl(host, path))
    else
      Local(kind, host, path)
  }

  /** `path.map(cdnPathHandle).join("")` */
  function Joined(kind: AssetKind, host: Host, paths: seq<string>): string
  {
    if paths == [] then "" else PathHandle(kind, host, paths[0]) + Joined(kind, host, paths[1..])
  }

  /** The resolvers' argument: one path, or an array of paths. */
  datatype PathArg = Single(path: string) | Many(paths: seq<string>)

  /** The body shared by the four resolvers. */
  function Render(kind: AssetKind, host: Host, arg: PathArg): string
  {
    match arg
    case Single(p) => PathHandle(kind, host, p)
    case Many(ps) => Joined(kind, host, ps)
  }

  /** An array of paths gives the results for its two halves, one after the
      other, with nothing in between. */
  lemma {:induction false} JoinedAppend(kind: AssetKind, host: Host, a: seq<string>, b: seq<string>)
    ensures Joined(kind, host, a + b) == Joined(kind, host, a) + Joined(kind, host, b)
  {
    if a == [] {
      assert a + b == b;
    } else {
      assert (a + b)[1..] == a[1..] + b;
      JoinedAppend(kind, host, a[1..], b);
    }
  }

  /** An array of paths is resolved element by element, in input order, and
      a one-element array gives the same output as the path on its own. */
  lemma ManyIsConcatenation(kind: AssetKind, host: Host, paths: seq<string>, p: string)
    ensures Render(kind, host, Many(paths + [p])) == Render(kind, host, Many(paths)) + Render(kind, host, Single(p))
    ensures Render(kind, host, Many([p])) == Render(kind, host, Single(p))
  {
    JoinedAppend(kind, host, paths, [p]);
  }

  /** With the CDN off, an array of paths gives the local helper's outputs
      for its elements, concatenated. */
  lemma {:induction false} DisabledIsLocal(kind: AssetKind, host: Host, paths: seq<string>)
    requires !host.theme.enable
    ensures Joined(kind, host, paths) == LocalJoined(kind, host, paths)
  {
    if paths != [] {
      DisabledIsLocal(kind, host, paths[1..]);
    }
  }

  /** The local helper's outputs for the paths, concatenated. */
  function LocalJoined(kind: AssetKind, host: Host, paths: seq<string>): string
  {
    if paths == [] then "" else Local(kind, host, paths[0]) + LocalJoined(kind, host, paths[1..])
  }

  /** `renderJS(path)` */
  function RenderJS(host: Host, arg: PathArg): (out: string)
    ensures arg.Single? && !host.theme.enable ==> out == host.js(arg.path)
    ensures arg.Single? && host.theme.enable ==>
              out == "<script src=\"" + CdnUrl(host, arg.path) + "\"></script>"
  {
    Render(Script, host, arg)
  }

  /** `renderJSModule(path)` */
  function RenderJSModule(host: Host, arg: PathArg): (out: string)
    ensures arg.Single? && !host.theme.enable ==> out == host.jsModule(arg.path)
    ensures arg.Single? && host.theme.enable ==>
              out == "<script type=\"module\" src=\"" + CdnUrl(host, arg.path) + "\"></script>"
  {
    Render(ModuleScript, host, arg)
  }

  /** `renderJSPath(path)` */
  function RenderJSPath(host: Host, arg: PathArg): (out: string)
    ensures arg.Single? && !host.theme.enable ==> out == host.urlFor(arg.path)
    ensures arg.Single? && host.theme.enable ==> out == CdnUrl(host, arg.path)
  {
    Render(PlainPath, host, arg)
  }

  /** `renderCSS(path)` */
  function RenderCSS(host: Host, arg: PathArg): (out: string)
    ensures arg.Single? && !host.theme.enable ==> out == host.css(arg.path)
    ensures arg.Single? && host.theme.enable ==>
              out == "<link rel=\"stylesheet\" href=\"" + CdnUrl(host, arg.path) + "\">"
  {
    Render(Stylesheet, host, arg)
  }

  /** In a URL whose only colon before index `i` is the one at index 5
      (`https:/...`), an occurrence at `i` of a pattern beginning with `:` and
      not with `:/` is the first one. */
  lemma ReplaceFirstAfterScheme(s: string, pat: string, rep: string, i: nat)
    requires |pat| >= 2 && pat[0] == ':' && pat[1] != '/'
    requires OccursAt(s, pat, i) && i > 6 && s[6] == '/'
    requires forall j :: 0 <= j < i && j != 5 ==> s[j] != ':'
    ensures ReplaceFirst(s, pat, rep) == s[..i] + rep + s[i + |pat|..]
  {
    forall j: nat | j < i ensures !OccursAt(s, pat, j) {
      if j + |pat| <= |s| {
        var w := s[j..j + |pat|];
        assert w[0] == s[j] && w[1] == s[j + 1];
      }
    }
    ReplaceFirstAt(s, pat, rep, i);
  }

  /** One substitution in a URL `https://<pre><pat><post>` where `pre` holds
      no colon. */
  lemma FillOne(pre: string, pat: string, post: string, rep: string)
    requires |pat| >= 2 && pat[0] == ':' && pat[1] != '/'
    requires ':' !in pre
    ensures ReplaceFirst("https://" + pre + pat + post, pat, rep) == "https://" + pre + rep + post
  {
    var scheme := "https://";
    var t := scheme + pre + pat + post;
    var i := 8 + |pre|;
    assert t[i..i + |pat|] == pat;
    forall j | 0 <= j < i && j != 5 ensures t[j] != ':' {
      if j < 8 {
        assert t[j] == scheme[j];
      } else {
        assert t[j] == pre[j - 8];
      }
    }
    assert t[6] == scheme[6];
    ReplaceFirstAfterScheme(t, pat, rep, i);
    assert t[..i] == scheme + pre;
    assert t[i + |pat|..] == post;
  }

  /** Filling a template whose site and middle part hold no colon gives the
      site, the version, the middle part and the path, in this order, provided
      the version holds no colon either. */
  lemma FillTemplate(site: string, mid: string, version: string, path: string)
    requires ':' !in site && ':' !in mid && ':' !in version
    ensures ReplaceFirst(ReplaceFirst(Tpl(site, mid), ":version", version), ":path", path)
            == "https://" + site + version + mid + path
  {
    var t := Tpl(site, mid);
    var tail := mid + ":path";
    assert t == "https://" + site + ":version" + tail;
    FillOne(site, ":version", tail, version);
    var u := ReplaceFirst(t, ":version", version);
    var pre := site + version + mid;
    assert u == "https://" + pre + ":path" + "";
    FillOne(pre, ":path", "", path);
    assert ReplaceFirst(u, ":path", path) == "https://" + pre + path + "";
    assert "https://" + pre + path + "" == "https://" + site + version + mid + path;
  }

  /** `getThemeVersion()` */
  function GetThemeVersion(host: Host): string
  {
    host.version
  }

  /** With a built-in provider whose template has a colon-free site and
      middle part, the URL is the template's text with the theme version and
      the path in place of the placeholders. */
  lemma BuiltInProviderUrl(host: Host, path: string, site: string, mid: string)
    requires host.theme.provider in BuiltInProviders
    requires BuiltInProviders[host.theme.provider] == Tpl(site, mid)
    requires ':' !in site && ':' !in mid && ':' !in host.version
    ensures CdnUrl(host, path) == "https://" + site + GetThemeVersion(host) + mid + path
  {
    FillTemplate(site, mid, host.version, path);
  }
}
