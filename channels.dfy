/** Channel links (`_LukChannel`): a channel id is rendered as a Discord
    channel URL under the bot's guild and read back from such a URL.
    The guild id comes from the settings object and is a parameter here. */
module Channels {
  import opened Wrappers
  import opened Text

  const UrlPrefix: string := "https://discord.com/channels/"

  datatype LukChannel = LukChannel(id: int, url: string)

  /** The constructor: `https://discord.com/channels/{guild}/{id}`. */
  function NewChannel(guild: int, id: int): (c: LukChannel)
    ensures c.id == id
    ensures |c.url| > |UrlPrefix| && c.url[..|UrlPrefix|] == UrlPrefix
    ensures LastPart(c.url, '/') == IntToString(id)
  {
    var url := UrlPrefix + IntToString(guild) + "/" + IntToString(id);
    assert url == (UrlPrefix + IntToString(guild)) + ['/'] + IntToString(id);
    IntToStringNoChar(id, '/');
    LastPartAfterSep(UrlPrefix + IntToString(guild), IntToString(id), '/');
    LukChannel(id, url)
  }

  /** `from_url`: the integer after the last '/'; `int()` raising is `None`. */
  function FromUrl(guild: int, url: string): (r: Option<LukChannel>)
    ensures r.Some? <==> ParseInt(LastPart(url, '/')).Some?
    ensures r.Some? ==> r.value == NewChannel(guild, ParseInt(LastPart(url, '/')).value)
  {
    match ParseInt(LastPart(url, '/'))
    case None => None
    case Some(id) => Some(NewChannel(guild, id))
  }

  /** Reading back the URL of a channel gives the same channel. */
  lemma FromUrlRoundTrip(guild: int, id: int)
    ensures FromUrl(guild, NewChannel(guild, id).url) == Some(NewChannel(guild, id))
  {
    ParseIntToString(id);
  }

  /** A URL ending in '/' has an empty last segment, which `int()` rejects. */
  lemma FromUrlTrailingSlash(guild: int, url: string)
    ensures FromUrl(guild, url + "/") == None
  {
    assert url + "/" == url + ['/'] + [];
    LastPartAfterSep(url, [], '/');
    ParseIntEmpty();
  }
}
