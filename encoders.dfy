/** The encoder step that ends every benchmark pipeline: which sharp output method is called, with which options. */
module Encoders {
  import opened Common

  /** `pipeline.jpeg(...)`, `pipeline.png(...)`, `pipeline.webp(...)` or `pipeline.avif(...)` with its option object. */
  datatype EncodeOptions =
    | Jpeg(quality: nat, mozjpeg: bool)
    | Png(pngQuality: Option<nat>, compressionLevel: Option<nat>)
    | Webp(quality: nat)
    | Avif(quality: nat, effort: nat)

  /** The output format an encoder step produces. */
  function OutputFormat(e: EncodeOptions): string {
    match e
    case Jpeg(_, _) => "jpeg"
    case Png(_, _) => "png"
    case Webp(_) => "webp"
    case Avif(_, _) => "avif"
  }

  /** The format a `switch (format)` with cases avif, png, webp and a shared `jpeg`/`default` case selects. */
  function Selected(format: string): string {
    if format in ["avif", "png", "webp"] then format else "jpeg"
  }
}
