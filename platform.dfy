/**
 * The community descriptor of scanning/domain/community.go and the
 * code-hosting platform handle of scanning/domain/platform/platform.go.
 * The platform clients themselves (Gitee and GitHub API calls) are not
 * modelled: downloading a scan configuration and uploading a report are
 * functions supplied by the caller.
 */
module Platforms {
  import opened Wrappers
  import opened ScanConfigs

  const PlatformGitee := "gitee"
  const PlatformGithub := "github"

  datatype Location = Location(ref: string, repo: string, path: string)

  datatype Community = Community(name: string, token: string, platform: string, scanConfigLocation: Location)

  datatype PlatformKind = Gitee | Github

  /** A platform client: the hosting service, the community it serves and where reports go. */
  datatype Platform = Platform(kind: PlatformKind, community: Community, output: Output) {
    /** Points the client at a report location and changes nothing else. */
    function SetOutput(o: Output): (p: Platform)
      ensures p.output == o && p.kind == kind && p.community == community
    {
      this.(output := o)
    }
  }

  /** A downloaded scan configuration and the sha of the file it came from. */
  datatype Download = Download(config: ScanConfig, sha: string)

  /** DownloadScanConfig: the configuration and its sha, or an error text. */
  type ConfigSource = Platform -> Result<Download, string>

  /** Upload(content, path) on a platform: None on success, or an error text. */
  type Uploader = (Platform, string, string) -> Option<string>
}
