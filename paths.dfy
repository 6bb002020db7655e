/**
 * The mount-root helpers of the collector package. `filepath.Join` is not
 * modelled: it is the parameter `join`.
 */
module Paths {

  /** The three configured roots: `--path.procfs`, `--path.sysfs`, `--path.rootfs`. */
  datatype PathConfig = PathConfig(procPath: string, sysPath: string, rootFsPath: string)

  /** The defaults of the path flags. */
  const DefaultConfig := PathConfig("/proc", "/sys", "/")

  function ProcFilePath(cfg: PathConfig, name: string, join: (string, string) -> string): string
  {
    join(cfg.procPath, name)
  }

  function SysFilePath(cfg: PathConfig, name: string, join: (string, string) -> string): string
  {
    join(cfg.sysPath, name)
  }

  function RootfsFilePath(cfg: PathConfig, name: string, join: (string, string) -> string): string
  {
    join(cfg.rootFsPath, name)
  }

  /** Each helper joins its own root, and reads no other. */
  lemma FilePathsUseOwnRoot(c1: PathConfig, c2: PathConfig, name: string, join: (string, string) -> string)
    ensures ProcFilePath(c1, name, join) == join(c1.procPath, name)
    ensures SysFilePath(c1, name, join) == join(c1.sysPath, name)
    ensures RootfsFilePath(c1, name, join) == join(c1.rootFsPath, name)
    ensures c1.procPath == c2.procPath ==> ProcFilePath(c1, name, join) == ProcFilePath(c2, name, join)
    ensures c1.sysPath == c2.sysPath ==> SysFilePath(c1, name, join) == SysFilePath(c2, name, join)
    ensures c1.rootFsPath == c2.rootFsPath ==> RootfsFilePath(c1, name, join) == RootfsFilePath(c2, name, join)
  {
  }

  /** `strings.TrimPrefix`: drops `prefix` once when `s` starts with it. */
  function TrimPrefix(s: string, prefix: string): (r: string)
    ensures prefix <= s ==> prefix + r == s
    ensures !(prefix <= s) ==> r == s
  {
    if prefix <= s then s[|prefix|..] else s
  }

  /**
   * `RootfsStripPrefix`: with the root `/` the path is kept; otherwise a
   * textual (not per-component) leading root is removed, and an empty result
   * becomes `/`.
   */
  function RootfsStripPrefix(cfg: PathConfig, path: string): (r: string)
    ensures cfg.rootFsPath == "/" ==> r == path
    ensures cfg.rootFsPath != "/" ==> r != ""
    ensures cfg.rootFsPath != "/" && cfg.rootFsPath <= path && |path| > |cfg.rootFsPath| ==>
      cfg.rootFsPath + r == path
    ensures cfg.rootFsPath != "/" && path == cfg.rootFsPath ==> r == "/"
    ensures cfg.rootFsPath != "/" && !(cfg.rootFsPath <= path) ==> r == (if path == "" then "/" else path)
  {
    if cfg.rootFsPath == "/" then path
    else
      var stripped := TrimPrefix(path, cfg.rootFsPath);
      if stripped == "" then "/" else stripped
  }

  /** Re-adding the root gives the path back, for every path strictly under a root other than `/`. */
  lemma StripThenJoinRoundTrip(cfg: PathConfig, rest: string)
    requires cfg.rootFsPath != "/" && rest != ""
    ensures RootfsStripPrefix(cfg, cfg.rootFsPath + rest) == rest
  {
    assert (cfg.rootFsPath + rest)[|cfg.rootFsPath|..] == rest;
  }

  /** The match is textual: root `/host` strips `/hostname` to `name`. */
  lemma TextualPrefixMatch()
    ensures RootfsStripPrefix(PathConfig("/proc", "/sys", "/host"), "/hostname") == "name"
  {
    StripThenJoinRoundTrip(PathConfig("/proc", "/sys", "/host"), "name");
    assert "/host" + "name" == "/hostname";
  }

  /** With the default `--path.rootfs` of "/", stripping changes no path. */
  lemma DefaultRootKeepsPath(path: string)
    ensures RootfsStripPrefix(DefaultConfig, path) == path
  {
  }
}
