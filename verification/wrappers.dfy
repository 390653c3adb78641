/** Option and Result, used wherever the Ruby code returns nil or raises. */
module Wrappers {

  datatype Option<+T> = None | Some(value: T)

  datatype Result<+T, +E> = Ok(value: T) | Err(error: E)
}

/**
 * The Ruby exceptions the core can raise or let through. Each carries the
 * message Ruby would attach; messages of exceptions raised by code outside
 * the model (the HTTP client, Redis, Geocoder) come from the oracle that
 * stands for that code.
 */
module Errors {

  datatype Error =
    | NotImplementedError(message: string)   // BaseFetcher defaults
    | ParserError(message: string)           // JSON.parse on malformed text
    | TypeError(message: string)             // e.g. []= on a parsed Array
    | NoMethodError(message: string)         // e.g. []= on nil, to_h on a String
    | ArgumentError(message: string)         // wrong number of arguments
    | IndexError(message: string)            // String#[]= with a substring that is absent
    | CommandError(message: string)          // an error reply from Redis
    | Unrepresentable(message: string)       // a Ruby hash with a non-string key, which a Document cannot hold
}

/** Latitudes and longitudes are only carried from caller to query, never computed on. */
module Geo {

  type Coord = real

  /** The signature of GeoHash.encode(latitude, longitude, precision). */
  type GeoHashEncoder = (Coord, Coord, nat) -> string
}
