/**
 * The records shared by the whole program (the crate root of kodi-helper):
 * a movie of the catalog, its resolution and cast, and a file of the remote
 * movies directory. Rust's fixed-width integers become newtypes whose range is
 * the type's range; a 32-bit float is carried as its bit pattern, since nothing
 * in the model computes with it.
 */
module Types {
  import opened Wrappers

  newtype u8 = x: int | 0 <= x < 0x100
  newtype u16 = x: int | 0 <= x < 0x1_0000

  /** An `f32`, kept as its IEEE-754 bit pattern. */
  datatype Float32 = Float32(bits: bv32)

  datatype Resolution = Sd | Hd720p | Hd1080p | Uhd4k | Uhd8k

  datatype Cast = Cast(name: string, role: string, thumbnail: Option<string>)

  datatype Movie = Movie(
    id: u16,
    title: string,
    runtime: u16,
    path: string,
    premiered: string,
    dateadded: string,
    resolution: Option<Resolution>,
    poster: Option<string>,
    rating: Float32,
    playcount: u8,
    setName: Option<string>,
    tags: seq<string>,
    genres: seq<string>,
    cast: seq<Cast>
  )

  datatype File = File(path: string, fileLabel: string)

  /**
   * What a handler answers: 200 with a JSON body, or 500 with an error text.
   * The web layer that turns it into HTTP is not modelled.
   */
  datatype HttpResponse<T> = HttpOk(body: T) | InternalServerError(reason: string)
}
