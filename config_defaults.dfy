/** internal/config/defaults.go: the built-in provider table and the
    configuration written on first run. */
module Defaults {
  import opened Config

  const CurrentVersion: string := "1"

  /** The default names: every entry of `DefaultProviders`. */
  const DefaultNames: set<string> :=
    {"go-build", "go-mod", "npm", "yarn", "homebrew", "mise", "uv", "jetbrains", "docker"}

  function Enabled(path: string, maxSize: string, cleanCmd: string): ProviderConfig
  {
    ProviderConfig(maxSize, "", cleanCmd, [path], true)
  }

  /** `DefaultProviders`. */
  function DefaultProviders(): (m: map<string, ProviderConfig>)
    ensures m.Keys == DefaultNames
  {
    map[
      "go-build" := Enabled("~/Library/Caches/go-build", "10G", "go clean -cache"),
      "go-mod" := Enabled("~/go/pkg/mod", "5G", "go clean -modcache"),
      "npm" := Enabled("~/.npm", "3G", "npm cache clean --force"),
      "yarn" := Enabled("~/Library/Caches/Yarn", "2G", "yarn cache clean"),
      "homebrew" := Enabled("~/Library/Caches/Homebrew", "5G", "brew cleanup"),
      "mise" := Enabled("~/.local/share/mise", "8G", "mise prune"),
      "uv" := Enabled("~/.cache/uv", "4G", ""),
      "jetbrains" := Enabled("~/Library/Caches/JetBrains", "3G", ""),
      "docker" := Enabled("~/Library/Containers/com.docker.docker", "50G", "docker system prune -af")
    ]
  }

  /** `DefaultConfig`. */
  function DefaultConfig(): (c: Config)
    ensures c.version == CurrentVersion
    ensures c.providers.Keys == DefaultNames
  {
    Config(DefaultProviders(), CurrentVersion)
  }

  /** Every default is enabled, with one path and a size limit. */
  lemma DefaultsComplete()
    ensures forall name :: name in DefaultProviders() ==>
      var p := DefaultProviders()[name];
      p.enabled && |p.paths| == 1 && p.maxSize != ""
  {
    var m := DefaultProviders();
    forall name | name in m
      ensures m[name].enabled && |m[name].paths| == 1 && m[name].maxSize != ""
    {
    }
  }

  /** The default configuration passes `Validate`. */
  lemma DefaultConfigValid()
    ensures Valid(DefaultConfig())
  {
    DefaultsComplete();
  }

  /** Every default is enabled, so all nine are listed by `AllEnabledProviders`. */
  lemma AllDefaultsEnabled()
    ensures EnabledNames(DefaultConfig()) == DefaultNames
  {
    DefaultsComplete();
  }

  /** Only uv and jetbrains come without a clean command. */
  lemma DefaultsWithoutCleanCmd()
    ensures forall name :: (name in DefaultProviders() && DefaultProviders()[name].cleanCmd == "")
                           <==> (name == "uv" || name == "jetbrains")
  {
  }
}
