/** The values a run of the font-file pipeline works on. */
module FontTypes {

  /** One candidate source of a variant: the URL to fetch and the format token it is declared to have. */
  datatype VariantUrl = VariantUrl(url: string, format: string)

  /** One style of a font family (such as "regular" or "700italic"): its identifier, the subsets it
      covers, and its candidate sources, one per format. */
  datatype Variant = Variant(id: string, subsets: seq<string>, urls: seq<VariantUrl>)

  /** The record kept for one fetched file: its variant, its format and the cache path it is named by. */
  datatype FontFilePath = FontFilePath(variant: string, format: string, path: string)

  /** The arguments of one run that take part in naming files: the configured cache directory, the
      font identifier, its version and the requested subsets. */
  datatype FontRequest = FontRequest(cacheDir: string, fontID: string, fontVersion: string, subsets: seq<string>)
}
