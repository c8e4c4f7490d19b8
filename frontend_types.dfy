/**
 * The post record the frontend receives from the store. Its counters are
 * kept as the text `parseInt` reads, since `parseInt` first converts its
 * argument to a string.
 */
module FrontendTypes {
  datatype FeedPost = FeedPost(
    id: string,
    name: string,
    username: string,
    body: string,
    likes: string,
    comments: string,
    shares: string)
}
