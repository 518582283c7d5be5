/** The limits of `ServerConfig.hpp` that the modelled code reads. */
module ServerConfig {
  const KB := 1024
  const MB := 1024 * KB

  const SINGLE_READ_BYTES := 1 * KB
  const MAX_HEADER_BYTES := 8 * KB
  const MAX_CONTENT_LENGTH := 1 * MB
  const MAX_TE_CHUNK_LENGTH := 1 * MB
  const MAX_TE_LENGTH := 10 * MB
  const MAX_WRITE_BUFFER_BYTES := 32 * MB

  const MAX_MULTIPART_PART_HEADER_SIZE := 8 * KB
  const MAX_MULTIPART_PARTS := 256
  const MAX_MULTIPART_BOUNDARY_LENGTH := 64
  const MULTIPART_BUFFER_SIZE := 4 * KB

  const STATIC_STREAM_CHUNK_SIZE := 8 * MB

  /** One past the largest `size_t`. */
  const SIZE_T := 0x1_0000_0000_0000_0000
}
